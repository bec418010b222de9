/** `encode` and `decode` (database.js, lines 473-524): copies of a value in
    which every property name, at every depth, is rewritten so that it can
    be (or once was) a MongoDB key.

    Both are instances of one walk, which copies arrays element by element,
    copies objects property by property in `Object.keys` order under renamed
    names (a later property whose new name is taken overwrites the earlier
    one, as `rval[key] = ...` does) and returns any other value as it is. */
module Codec {
  import opened Wrappers
  import opened Json
  import opened Text
  import opened Errors
  import opened Uri

  /** The value with every property name `k` replaced by `rename(k)`. */
  function MapKeys(v: Value, rename: string -> string): Value
    decreases v, 1, 0
  {
    match v
    case Arr(xs) => Arr(seq(|xs|, i requires 0 <= i < |xs| => MapKeys(xs[i], rename)))
    case Obj(ps) => Obj(RenameProps(v, |ps|, rename))
    case _ => v
  }

  /** The copy of the first `n` properties of the object `parent`. */
  function RenameProps(parent: Value, n: nat, rename: string -> string): seq<Field>
    requires parent.Obj? && n <= |parent.props|
    decreases parent, 0, n
  {
    if n == 0 then []
    else
      var f := parent.props[n - 1];
      Assign(RenameProps(parent, n - 1, rename), rename(f.name), MapKeys(f.value, rename))
  }

  /** The walk with a renaming that may throw: the first error, in the order
      the source meets them (a property's name, then its value, then the
      next property; array elements in order), is the result. */
  function TryMapKeys(v: Value, rename: string -> Result<string, ForeignError>): Result<Value, ForeignError>
    decreases v, 1, 0
  {
    match v
    case Arr(xs) =>
      (match TryElems(v, |xs|, rename)
       case Err(e) => Err(e)
       case Ok(ys) => Ok(Arr(ys)))
    case Obj(ps) =>
      (match TryRenameProps(v, |ps|, rename)
       case Err(e) => Err(e)
       case Ok(qs) => Ok(Obj(qs)))
    case _ => Ok(v)
  }

  function TryElems(parent: Value, n: nat, rename: string -> Result<string, ForeignError>): Result<seq<Value>, ForeignError>
    requires parent.Arr? && n <= |parent.elems|
    decreases parent, 0, n
  {
    if n == 0 then Ok([])
    else match TryElems(parent, n - 1, rename)
      case Err(e) => Err(e)
      case Ok(prefix) =>
        match TryMapKeys(parent.elems[n - 1], rename)
        case Err(e) => Err(e)
        case Ok(x) => Ok(prefix + [x])
  }

  function TryRenameProps(parent: Value, n: nat, rename: string -> Result<string, ForeignError>): Result<seq<Field>, ForeignError>
    requires parent.Obj? && n <= |parent.props|
    decreases parent, 0, n
  {
    if n == 0 then Ok([])
    else match TryRenameProps(parent, n - 1, rename)
      case Err(e) => Err(e)
      case Ok(prefix) => TryRenameField(parent, n - 1, prefix, rename)
  }

  /** The copy of the `i`-th property added to the copy of those before it. */
  function TryRenameField(parent: Value, i: nat, prefix: seq<Field>, rename: string -> Result<string, ForeignError>)
    : Result<seq<Field>, ForeignError>
    requires parent.Obj? && i < |parent.props|
    decreases parent, 0, i
  {
    var f := parent.props[i];
    match rename(f.name)
    case Err(e) => Err(e)
    case Ok(k) =>
      match TryMapKeys(f.value, rename)
      case Err(e) => Err(e)
      case Ok(x) => Ok(Assign(prefix, k, x))
  }

  /** `renamed` is what the walk makes of the first `n` properties of `ps`
      when no two of their new names clash: the same properties, in the
      same order, under their new names. */
  predicate RenamedInOrder(ps: seq<Field>, n: nat, rename: string -> string, renamed: seq<Field>)
    requires n <= |ps|
  {
    |renamed| == n &&
    forall i :: 0 <= i < n ==> renamed[i] == Field(rename(ps[i].name), MapKeys(ps[i].value, rename))
  }

  /** A renaming that is one-to-one on the names of `ps`. */
  predicate InjectiveOn(ps: seq<Field>, rename: string -> string)
  {
    forall i, j :: 0 <= i < |ps| && 0 <= j < |ps| && rename(ps[i].name) == rename(ps[j].name) ==> ps[i].name == ps[j].name
  }

  /** When the renaming keeps distinct names distinct, the copy has the
      object's properties in their order, none lost to a clash. */
  lemma {:induction false} RenamePropsInOrder(parent: Value, n: nat, rename: string -> string)
    requires parent.Obj? && n <= |parent.props|
    requires DistinctKeys(parent.props) && InjectiveOn(parent.props, rename)
    ensures RenamedInOrder(parent.props, n, rename, RenameProps(parent, n, rename))
    decreases n
  {
    if n > 0 {
      var ps := parent.props;
      RenamePropsInOrder(parent, n - 1, rename);
      var prefix := RenameProps(parent, n - 1, rename);
      var k := rename(ps[n - 1].name);
      RenamedFresh(ps, n, rename, prefix);
      AppendNewKey(prefix, k, MapKeys(ps[n - 1].value, rename));
      RenamedAppend(ps, n, rename, prefix);
    }
  }

  /** The next new name is not among those already written. */
  lemma RenamedFresh(ps: seq<Field>, n: nat, rename: string -> string, prefix: seq<Field>)
    requires 0 < n <= |ps| && DistinctKeys(ps) && InjectiveOn(ps, rename)
    requires RenamedInOrder(ps, n - 1, rename, prefix)
    ensures forall j :: 0 <= j < |prefix| ==> prefix[j].name != rename(ps[n - 1].name)
  {
    forall j | 0 <= j < |prefix| ensures prefix[j].name != rename(ps[n - 1].name) {
      assert prefix[j].name == rename(ps[j].name);
      assert ps[j].name != ps[n - 1].name;
    }
  }

  lemma RenamedAppend(ps: seq<Field>, n: nat, rename: string -> string, prefix: seq<Field>)
    requires 0 < n <= |ps| && RenamedInOrder(ps, n - 1, rename, prefix)
    ensures RenamedInOrder(ps, n, rename, prefix + [Field(rename(ps[n - 1].name), MapKeys(ps[n - 1].value, rename))])
  {
    var r := prefix + [Field(rename(ps[n - 1].name), MapKeys(ps[n - 1].value, rename))];
    forall i | 0 <= i < n ensures r[i] == Field(rename(ps[i].name), MapKeys(ps[i].value, rename)) {
      if i < n - 1 {
        assert r[i] == prefix[i];
      }
    }
  }

  /** Every property name the walk writes is the renaming of one it read,
      so a property of the new names holds at every depth when the renaming
      guarantees it. */
  lemma {:induction false} MapKeysAllKeys(v: Value, rename: string -> string, p: string -> bool)
    requires forall k :: p(rename(k))
    ensures AllKeys(MapKeys(v, rename), p)
    decreases v, 1, 0
  {
    match v
    case Arr(xs) =>
      forall i | 0 <= i < |xs| ensures AllKeys(MapKeys(xs[i], rename), p) {
        MapKeysAllKeys(xs[i], rename, p);
      }
    case Obj(ps) => RenamePropsAllKeys(v, |ps|, rename, p);
    case _ =>
  }

  lemma {:induction false} RenamePropsAllKeys(parent: Value, n: nat, rename: string -> string, p: string -> bool)
    requires parent.Obj? && n <= |parent.props|
    requires forall k :: p(rename(k))
    ensures AllKeys(Obj(RenameProps(parent, n, rename)), p)
    decreases parent, 0, n
  {
    if n > 0 {
      var f := parent.props[n - 1];
      RenamePropsAllKeys(parent, n - 1, rename, p);
      MapKeysAllKeys(f.value, rename, p);
      AssignAllKeys(RenameProps(parent, n - 1, rename), rename(f.name), MapKeys(f.value, rename), p);
    }
  }

  /** Assigning a property whose name and value satisfy `p` keeps every
      name of the object satisfying it. */
  lemma AssignAllKeys(props: seq<Field>, k: string, v: Value, p: string -> bool)
    requires AllKeys(Obj(props), p) && p(k) && AllKeys(v, p)
    ensures AllKeys(Obj(Assign(props, k, v)), p)
  {
    var r := Assign(props, k, v);
    forall i | 0 <= i < |r| ensures p(r[i].name) && AllKeys(r[i].value, p) {
      assert r[i] in r;
      if r[i] != Field(k, v) {
        var j :| 0 <= j < |props| && props[j] == r[i];
      }
    }
  }

  /** A renaming that leaves every name alone copies the value exactly. */
  lemma {:induction false} MapKeysIdentity(v: Value, rename: string -> string, p: string -> bool)
    requires WellFormed(v) && AllKeys(v, p)
    requires forall k :: p(k) ==> rename(k) == k
    ensures MapKeys(v, rename) == v
    decreases v, 1, 0
  {
    match v
    case Arr(xs) =>
      forall i | 0 <= i < |xs| ensures MapKeys(xs[i], rename) == xs[i] {
        MapKeysIdentity(xs[i], rename, p);
      }
      assert MapKeys(v, rename).elems == xs;
    case Obj(ps) =>
      IdentityInjective(ps, rename, p);
      RenamePropsInOrder(v, |ps|, rename);
      var r := RenameProps(v, |ps|, rename);
      forall i | 0 <= i < |ps| ensures r[i] == ps[i] {
        PropertyFacts(v, i, p);
        MapKeysIdentity(ps[i].value, rename, p);
      }
      assert r == ps;
    case _ =>
  }

  lemma IdentityInjective(ps: seq<Field>, rename: string -> string, p: string -> bool)
    requires AllKeys(Obj(ps), p)
    requires forall k :: p(k) ==> rename(k) == k
    ensures InjectiveOn(ps, rename)
  {
    forall i, j | 0 <= i < |ps| && 0 <= j < |ps| && rename(ps[i].name) == rename(ps[j].name)
      ensures ps[i].name == ps[j].name
    {
      assert p(ps[i].name) && p(ps[j].name);
    }
  }

  /** A renaming that has an inverse on the names is one-to-one on them. */
  lemma InvertibleInjective(ps: seq<Field>, enc: string -> string, dec: string -> Result<string, ForeignError>, p: string -> bool)
    requires AllKeys(Obj(ps), p)
    requires forall k :: p(k) ==> dec(enc(k)) == Ok(k)
    ensures InjectiveOn(ps, enc)
  {
    forall i, j | 0 <= i < |ps| && 0 <= j < |ps| && enc(ps[i].name) == enc(ps[j].name)
      ensures ps[i].name == ps[j].name
    {
      assert p(ps[i].name) && p(ps[j].name);
      assert Ok(ps[i].name) == dec(enc(ps[i].name)) == dec(enc(ps[j].name)) == Ok(ps[j].name);
    }
  }

  /** The round trip: when `dec` undoes `enc` on every name satisfying `p`,
      and every name in `v` does, decoding the encoded value gives `v`. */
  lemma {:induction false} TryMapKeysRoundTrip(v: Value, enc: string -> string, dec: string -> Result<string, ForeignError>, p: string -> bool)
    requires WellFormed(v) && AllKeys(v, p)
    requires forall k :: p(k) ==> dec(enc(k)) == Ok(k)
    ensures TryMapKeys(MapKeys(v, enc), dec) == Ok(v)
    decreases v, 1, 0
  {
    match v
    case Arr(xs) =>
      var encoded := MapKeys(v, enc).elems;
      forall i | 0 <= i < |xs| ensures TryMapKeys(encoded[i], dec) == Ok(xs[i]) {
        ElementRoundTrip(v, i, enc, dec, p);
      }
      TryElemsRoundTrip(xs, |xs|, encoded, dec);
      assert xs[..|xs|] == xs;
    case Obj(ps) =>
      InvertibleInjective(ps, enc, dec, p);
      RenamePropsInOrder(v, |ps|, enc);
      var encoded := RenameProps(v, |ps|, enc);
      forall i | 0 <= i < |ps|
        ensures dec(encoded[i].name) == Ok(ps[i].name) && TryMapKeys(encoded[i].value, dec) == Ok(ps[i].value)
      {
        PropertyRoundTrip(v, i, enc, dec, p);
      }
      TryRenamePropsRoundTrip(ps, |ps|, encoded, dec);
      assert ps[..|ps|] == ps;
    case _ =>
  }

  /** Decoding the first `n` encoded elements gives the first `n`
      originals back, when each encoded element decodes to the original in
      its place. */
  lemma {:induction false} TryElemsRoundTrip(xs: seq<Value>, n: nat, encoded: seq<Value>,
                                             dec: string -> Result<string, ForeignError>)
    requires n <= |xs| && |encoded| == |xs|
    requires forall i {:trigger encoded[i]} :: 0 <= i < |xs| ==> TryMapKeys(encoded[i], dec) == Ok(xs[i])
    ensures TryElems(Arr(encoded), n, dec) == Ok(xs[..n])
    decreases n
  {
    if n > 0 {
      TryElemsRoundTrip(xs, n - 1, encoded, dec);
      assert TryMapKeys(encoded[n - 1], dec) == Ok(xs[n - 1]);
      assert xs[..n] == xs[..n - 1] + [xs[n - 1]];
    }
  }

  /** The `i`-th element survives the round trip. */
  lemma {:induction false} ElementRoundTrip(parent: Value, i: nat, enc: string -> string,
                                            dec: string -> Result<string, ForeignError>, p: string -> bool)
    requires parent.Arr? && i < |parent.elems|
    requires WellFormed(parent) && AllKeys(parent, p)
    requires forall k :: p(k) ==> dec(enc(k)) == Ok(k)
    ensures TryMapKeys(MapKeys(parent, enc).elems[i], dec) == Ok(parent.elems[i])
    decreases parent, 0, 0
  {
    var x := parent.elems[i];
    assert MapKeys(parent, enc).elems[i] == MapKeys(x, enc);
    assert WellFormed(x) && AllKeys(x, p);
    TryMapKeysRoundTrip(x, enc, dec, p);
  }

  /** Decoding the first `n` encoded properties gives the first `n`
      originals back, when each encoded property decodes to the original in
      its place. */
  lemma {:induction false} TryRenamePropsRoundTrip(ps: seq<Field>, n: nat, encoded: seq<Field>,
                                                   dec: string -> Result<string, ForeignError>)
    requires n <= |ps| && DistinctKeys(ps) && |encoded| == |ps|
    requires forall i {:trigger encoded[i]} :: 0 <= i < |ps| ==>
      dec(encoded[i].name) == Ok(ps[i].name) && TryMapKeys(encoded[i].value, dec) == Ok(ps[i].value)
    ensures TryRenameProps(Obj(encoded), n, dec) == Ok(ps[..n])
    decreases n
  {
    if n == 0 {
      assert ps[..0] == [];
    } else {
      TryRenamePropsRoundTrip(ps, n - 1, encoded, dec);
      var f := encoded[n - 1];
      assert dec(f.name) == Ok(ps[n - 1].name) && TryMapKeys(f.value, dec) == Ok(ps[n - 1].value);
      TryRenameNext(Obj(encoded), ps, n, dec, f.name, f.value);
    }
  }

  /** A property whose name and value both survive the round trip. */
  predicate PropertyDecodes(f: Field, enc: string -> string, dec: string -> Result<string, ForeignError>)
  {
    dec(enc(f.name)) == Ok(f.name) && TryMapKeys(MapKeys(f.value, enc), dec) == Ok(f.value)
  }

  lemma {:induction false} PropertyRoundTrip(parent: Value, i: nat, enc: string -> string,
                                             dec: string -> Result<string, ForeignError>, p: string -> bool)
    requires parent.Obj? && i < |parent.props|
    requires WellFormed(parent) && AllKeys(parent, p)
    requires forall k :: p(k) ==> dec(enc(k)) == Ok(k)
    ensures PropertyDecodes(parent.props[i], enc, dec)
    decreases parent, 0, 0
  {
    PropertyFacts(parent, i, p);
    TryMapKeysRoundTrip(parent.props[i].value, enc, dec, p);
  }

  /** One more property decoded: the `n`-th encoded property decodes to
      the `n`-th original one. */
  lemma TryRenameNext(e: Value, ps: seq<Field>, n: nat, dec: string -> Result<string, ForeignError>, k: string, x: Value)
    requires e.Obj? && 0 < n <= |e.props| && n <= |ps| && DistinctKeys(ps)
    requires e.props[n - 1] == Field(k, x)
    requires dec(k) == Ok(ps[n - 1].name) && TryMapKeys(x, dec) == Ok(ps[n - 1].value)
    requires TryRenameProps(e, n - 1, dec) == Ok(ps[..n - 1])
    ensures TryRenameProps(e, n, dec) == Ok(ps[..n])
  {
    AssignPrefix(ps, n);
  }

  /** What a well-formed object whose names all satisfy `p` says about its
      `i`-th property. */
  lemma PropertyFacts(parent: Value, i: nat, p: string -> bool)
    requires parent.Obj? && i < |parent.props| && WellFormed(parent) && AllKeys(parent, p)
    ensures p(parent.props[i].name) && WellFormed(parent.props[i].value) && AllKeys(parent.props[i].value, p)
    ensures DistinctKeys(parent.props)
  {
  }

  /** Copying the properties of an object one by one rebuilds each prefix. */
  lemma AssignPrefix(ps: seq<Field>, n: nat)
    requires DistinctKeys(ps) && 0 < n <= |ps|
    ensures Assign(ps[..n - 1], ps[n - 1].name, ps[n - 1].value) == ps[..n]
  {
    var prefix := ps[..n - 1];
    forall j | 0 <= j < |prefix| ensures prefix[j].name != ps[n - 1].name {
      assert prefix[j] == ps[j];
    }
    AppendNewKey(prefix, ps[n - 1].name, ps[n - 1].value);
    assert ps[..n] == prefix + [ps[n - 1]];
  }

  // ---------------------------------------------------------------------
  // encode as the source writes it

  /** The property-name rewrite of `encode` as written (lines 485-488): the
      patterns are the literal strings `/%/g`, `/$/g` and `/./g`, not regular
      expressions, so each call replaces at most the first occurrence of that
      four-character text. */
  function EscapeKeyAsWritten(name: string): string
  {
    ReplaceFirst(ReplaceFirst(ReplaceFirst(name, "/%/g", "%25"), "/$/g", "%24"), "/./g", "%2E")
  }

  /** `encode(value)` as written. */
  function Encode(v: Value): Value
  {
    MapKeys(v, EscapeKeyAsWritten)
  }

  /** A name without `/` is left as it is, `.`, `$` and `%` included. */
  lemma EscapeKeyAsWrittenKeeps(name: string)
    requires '/' !in name
    ensures EscapeKeyAsWritten(name) == name
  {
    IndexOfMissingFirst(name, "/%/g");
    IndexOfMissingFirst(name, "/$/g");
    IndexOfMissingFirst(name, "/./g");
  }

  predicate HasNoSlash(k: string)
  {
    '/' !in k
  }

  /** As written, `encode` changes nothing in a value whose property names
      hold no `/`: keys with `.` or `$` reach MongoDB unescaped. */
  lemma EncodeAsWrittenIsIdentity(v: Value)
    requires WellFormed(v) && AllKeys(v, HasNoSlash)
    ensures Encode(v) == v
  {
    forall k | HasNoSlash(k) ensures EscapeKeyAsWritten(k) == k {
      EscapeKeyAsWrittenKeeps(k);
    }
    MapKeysIdentity(v, EscapeKeyAsWritten, HasNoSlash);
  }

  /** A dotted key is not escaped. */
  lemma EncodeAsWrittenKeepsDots()
    ensures Encode(Obj([Field("a.b", Num(1))])) == Obj([Field("a.b", Num(1))])
  {
    EncodeAsWrittenIsIdentity(Obj([Field("a.b", Num(1))]));
  }

  /** A key ending in `%` is stored as it is and then makes `decode` throw. */
  lemma EncodeAsWrittenBreaksDecode()
    ensures Decode(Encode(Obj([Field("100%", Null)]))) == Err(URI_MALFORMED)
  {
    EncodeAsWrittenIsIdentity(Obj([Field("100%", Null)]));
    MalformedEscapes();
  }

  /** The key `/%/g` comes back from the round trip as `%`. */
  lemma EncodeAsWrittenRenamesPattern()
    ensures Decode(Encode(Obj([Field("/%/g", Null)]))) == Ok(Obj([Field("%", Null)]))
  {
    EncodePatternKey();
    DecodePercentKey();
  }

  lemma EncodePatternKey()
    ensures Encode(Obj([Field("/%/g", Null)])) == Obj([Field("%25", Null)])
  {
    var v := Obj([Field("/%/g", Null)]);
    var f := Field("/%/g", Null);
    EscapePatternText();
    assert RenameProps(v, 1, EscapeKeyAsWritten) == Assign([], EscapeKeyAsWritten(f.name), MapKeys(Null, EscapeKeyAsWritten));
    AppendNewKey([], "%25", Null);
    assert [] + [Field("%25", Null)] == [Field("%25", Null)];
  }

  lemma DecodePercentKey()
    ensures Decode(Obj([Field("%25", Null)])) == Ok(Obj([Field("%", Null)]))
  {
    var e := Obj([Field("%25", Null)]);
    DecodePercent25();
    assert TryRenameProps(e, 1, DecodeUriComponent) == Ok(Assign([], "%", Null));
    AppendNewKey([], "%", Null);
    assert [] + [Field("%", Null)] == [Field("%", Null)];
    assert TryMapKeys(e, DecodeUriComponent) == Ok(Obj(Assign([], "%", Null)));
  }

  lemma EscapePatternText()
    ensures EscapeKeyAsWritten("/%/g") == "%25"
  {
    var k := "/%/g";
    assert OccursAt(k, "/%/g", 0);
    IndexOfMissingFirst("%25", "/$/g");
    IndexOfMissingFirst("%25", "/./g");
  }

  lemma DecodePercent25()
    ensures DecodeUriComponent("%25") == Ok("%")
  {
    var s := "%25";
    assert Octet(s, 0) == Some(0x25) && s[3..] == [];
    assert DecodeEscape(s) == Some(('%', 3));
    assert DecodeUriComponent(s) == Prepend('%', Ok([]));
    assert ['%'] + [] == "%";
  }

  // ---------------------------------------------------------------------
  // encode as intended, and decode

  /** `encode(value)` as its comment intends: every `%`, `$` and `.` in every
      property name is percent-escaped. */
  function EncodeIntended(v: Value): Value
  {
    MapKeys(v, EscapeKeyIntended)
  }

  /** `decode(value)`: `decodeURIComponent` applied to every property name;
      a malformed name throws a URIError. */
  function Decode(v: Value): Result<Value, ForeignError>
  {
    TryMapKeys(v, DecodeUriComponent)
  }

  predicate IsMongoKeySafe(k: string)
  {
    '$' !in k && '.' !in k
  }

  /** The encoded value has no `$` and no `.` in any property name. */
  lemma EncodeIntendedIsKeySafe(v: Value)
    ensures AllKeys(EncodeIntended(v), IsMongoKeySafe)
  {
    MapKeysAllKeys(v, EscapeKeyIntended, IsMongoKeySafe);
  }

  predicate AnyKey(k: string)
  {
    true
  }

  /** Every JavaScript object value comes back from the round trip. */
  lemma DecodeEncodeIntended(v: Value)
    requires WellFormed(v)
    ensures Decode(EncodeIntended(v)) == Ok(v)
  {
    AllKeysTrue(v);
    forall k ensures DecodeUriComponent(EscapeKeyIntended(k)) == Ok(k) {
      DecodeEscapedKey(k);
    }
    TryMapKeysRoundTrip(v, EscapeKeyIntended, DecodeUriComponent, AnyKey);
  }

  lemma {:induction false} AllKeysTrue(v: Value)
    ensures AllKeys(v, AnyKey)
    decreases v
  {
    match v
    case Arr(xs) =>
      forall i | 0 <= i < |xs| ensures AllKeys(xs[i], AnyKey) {
        AllKeysTrue(xs[i]);
      }
    case Obj(ps) =>
      forall i | 0 <= i < |ps| ensures AllKeys(ps[i].value, AnyKey) {
        AllKeysTrue(ps[i].value);
      }
    case _ =>
  }

  predicate HasNoPercent(k: string)
  {
    '%' !in k
  }

  /** `decode` leaves a value whose property names hold no `%` as it is. */
  lemma DecodeWithoutEscapes(v: Value)
    requires WellFormed(v) && AllKeys(v, HasNoPercent)
    ensures Decode(v) == Ok(v)
  {
    var id := (k: string) => k;
    MapKeysIdentity(v, id, HasNoPercent);
    TryMapKeysRoundTrip(v, id, DecodeUriComponent, HasNoPercent);
  }

  /** The round trip that `encode` as written does complete: property
      names holding neither `/` nor `%` come back unchanged. */
  lemma DecodeEncodeAsWritten(v: Value)
    requires WellFormed(v) && AllKeys(v, HasNoSlash) && AllKeys(v, HasNoPercent)
    ensures Decode(Encode(v)) == Ok(v)
  {
    EncodeAsWrittenIsIdentity(v);
    DecodeWithoutEscapes(v);
  }
}
