/** `buildUpdate` (database.js, lines 388-422): the `$set` document for a
    MongoDB update, which flattens an object into one property per leaf
    value, named by the leaf's dot-delimited path.

    The source walks the object recursively and writes every leaf into one
    shared accumulator (`rval`, the fourth argument). The model keeps that
    walk as a recursive method over a Doc, and specifies it by the list of
    assignments the walk performs, in order (Assignments), played onto the
    accumulator (AssignAll). */
module Update {
  import opened Wrappers
  import opened Json

  /** The `include` and `exclude` lists of the options argument; a list is
      None when the option is absent. */
  datatype Options = Options(includes: Option<seq<string>>, excludes: Option<seq<string>>)

  /** The options a call without an options argument gets (`options || {}`). */
  const NO_OPTIONS := Options(None, None)

  /** The two early returns of lines 404-410: a field is skipped when it is
      excluded, or when an include list is given and the field is a dotted
      path that list does not name. */
  predicate Admits(field: string, opts: Options)
  {
    !(opts.excludes.Some? && field in opts.excludes.value) &&
    !(opts.includes.Some? && '.' in field && field !in opts.includes.value)
  }

  /** The path of property `name` below `field` (lines 419-420). */
  function Child(field: string, name: string): string
  {
    if |field| > 0 then field + "." + name else name
  }

  /** The assignments `rval[path] = leaf` that visiting `v` at `field`
      performs, in the order it performs them. Objects are walked in
      `Object.keys` order; anything that is not an object (arrays and null
      included) is a leaf. */
  function Assignments(v: Value, field: string, opts: Options): seq<Field>
    decreases v, 1, 0
  {
    if !Admits(field, opts) then []
    else if v.Obj? then PropsAssignments(v, |v.props|, field, opts)
    else [Field(field, v)]
  }

  /** The assignments made while visiting the first `n` properties of the
      object `parent`, which sits at `field`. */
  function PropsAssignments(parent: Value, n: nat, field: string, opts: Options): seq<Field>
    requires parent.Obj? && n <= |parent.props|
    decreases parent, 0, n
  {
    if n == 0 then []
    else PropsAssignments(parent, n - 1, field, opts) + ChildAssignments(parent, n - 1, field, opts)
  }

  /** The assignments made while visiting property `i` of `parent`. */
  function ChildAssignments(parent: Value, i: nat, field: string, opts: Options): seq<Field>
    requires parent.Obj? && i < |parent.props|
    decreases parent, 0, i
  {
    var f := parent.props[i];
    Assignments(f.value, Child(field, f.name), opts)
  }

  /** The accumulator after the assignments `xs`, one after the other. */
  function AssignAll(acc: seq<Field>, xs: seq<Field>): seq<Field>
    decreases |xs|
  {
    if xs == [] then acc
    else
      var last := xs[|xs| - 1];
      Assign(AssignAll(acc, xs[..|xs| - 1]), last.name, last.value)
  }

  /** What `buildUpdate(obj, field, options)` returns when called without
      an accumulator. */
  function UpdateOf(v: Value, field: string, opts: Options): seq<Field>
  {
    AssignAll([], Assignments(v, field, opts))
  }

  lemma {:induction false} AssignAllConcat(acc: seq<Field>, xs: seq<Field>, ys: seq<Field>)
    ensures AssignAll(acc, xs + ys) == AssignAll(AssignAll(acc, xs), ys)
    decreases |ys|
  {
    if ys == [] {
      assert xs + ys == xs;
    } else {
      assert (xs + ys)[..|xs + ys| - 1] == xs + ys[..|ys| - 1];
      AssignAllConcat(acc, xs, ys[..|ys| - 1]);
    }
  }

  /** `buildUpdate(obj, field, options, rval)`: adds the update for `obj`
      at `field` to the accumulator `rval`. */
  method BuildUpdateInto(obj: Value, field: string, options: Options, rval: Doc)
    modifies rval
    ensures rval.props == AssignAll(old(rval.props), Assignments(obj, field, options))
    decreases obj
  {
    ghost var acc := rval.props;
    if options.excludes.Some? && field in options.excludes.value {
      assert Assignments(obj, field, options) == [];
      return;
    }
    if options.includes.Some? && '.' in field && field !in options.includes.value {
      assert Assignments(obj, field, options) == [];
      return;
    }
    if obj.Obj? {
      var i := 0;
      while i < |obj.props|
        invariant 0 <= i <= |obj.props|
        invariant rval.props == AssignAll(acc, PropsAssignments(obj, i, field, options))
      {
        var f := obj.props[i];
        BuildUpdateInto(f.value, Child(field, f.name), options, rval);
        assert PropsAssignments(obj, i + 1, field, options)
               == PropsAssignments(obj, i, field, options) + ChildAssignments(obj, i, field, options);
        AssignAllConcat(acc, PropsAssignments(obj, i, field, options), ChildAssignments(obj, i, field, options));
        i := i + 1;
      }
      assert Assignments(obj, field, options) == PropsAssignments(obj, |obj.props|, field, options);
    } else {
      rval.props := Assign(rval.props, field, obj);
      assert Assignments(obj, field, options) == [Field(field, obj)];
      AssignAllOne(acc, Field(field, obj));
    }
  }

  lemma AssignAllOne(acc: seq<Field>, f: Field)
    ensures AssignAll(acc, [f]) == Assign(acc, f.name, f.value)
  {
    assert [f][..0] == [];
  }

  /** `buildUpdate(obj, field, options)`: a fresh accumulator is filled and
      returned. */
  method BuildUpdate(obj: Value, field: string, options: Options) returns (update: seq<Field>)
    ensures update == UpdateOf(obj, field, options)
  {
    var rval := new Doc([]);
    BuildUpdateInto(obj, field, options, rval);
    update := rval.props;
  }

  // ---------------------------------------------------------------------
  // What the assignments are

  /** The value reached from `v` by following the property names `names`. */
  function At(v: Value, names: seq<string>): Option<Value>
    decreases |names|
  {
    if names == [] then Some(v)
    else if v.Obj? && HasKey(v.props, names[0]) then At(Get(v.props, names[0]).value, names[1..])
    else None
  }

  /** The dot-delimited path the walk uses for the property reached by
      `names` from `field`. */
  function PathOf(field: string, names: seq<string>): string
    decreases |names|
  {
    if names == [] then field else PathOf(Child(field, names[0]), names[1..])
  }

  /** Every field visited on the way down `names`, the last included, passes
      the include and exclude checks. */
  predicate ChainAdmitted(field: string, names: seq<string>, opts: Options)
    decreases |names|
  {
    Admits(field, opts) && (names == [] || ChainAdmitted(Child(field, names[0]), names[1..], opts))
  }

  /** Following `names` from `v` ends at the leaf `x`, whose path is `path`,
      and no check on the way skips it. */
  predicate Reaches(v: Value, field: string, names: seq<string>, opts: Options, path: string, x: Value)
  {
    At(v, names) == Some(x) && !x.Obj? && path == PathOf(field, names) && ChainAdmitted(field, names, opts)
  }

  lemma {:induction false} PropsAssignmentsMember(parent: Value, n: nat, field: string, opts: Options, f: Field)
    requires parent.Obj? && n <= |parent.props|
    ensures f in PropsAssignments(parent, n, field, opts) <==>
      exists i :: 0 <= i < n && f in ChildAssignments(parent, i, field, opts)
    decreases n
  {
    if n > 0 {
      PropsAssignmentsMember(parent, n - 1, field, opts, f);
      var xs, ys := PropsAssignments(parent, n - 1, field, opts), ChildAssignments(parent, n - 1, field, opts);
      assert PropsAssignments(parent, n, field, opts) == xs + ys;
      if f in xs {
        var i :| 0 <= i < n - 1 && f in ChildAssignments(parent, i, field, opts);
        assert 0 <= i < n && f in ChildAssignments(parent, i, field, opts);
      } else if f in ys {
        assert 0 <= n - 1 < n && f in ChildAssignments(parent, n - 1, field, opts);
      }
      if exists i :: 0 <= i < n && f in ChildAssignments(parent, i, field, opts) {
        var i :| 0 <= i < n && f in ChildAssignments(parent, i, field, opts);
        if i == n - 1 {
          assert f in ys;
        } else {
          assert 0 <= i < n - 1 && f in ChildAssignments(parent, i, field, opts);
          assert f in xs;
        }
      }
    }
  }

  /** Every assignment is of a leaf that some chain of property names leads
      to, at the path of that chain. */
  lemma {:induction false} AssignmentSound(v: Value, field: string, opts: Options, path: string, x: Value)
    returns (names: seq<string>)
    requires WellFormed(v)
    requires Field(path, x) in Assignments(v, field, opts)
    ensures Reaches(v, field, names, opts, path, x)
    decreases v
  {
    if v.Obj? {
      var ps := v.props;
      PropsAssignmentsMember(v, |ps|, field, opts, Field(path, x));
      var i :| 0 <= i < |ps| && Field(path, x) in ChildAssignments(v, i, field, opts);
      var k := ps[i].name;
      var rest := AssignmentSound(ps[i].value, Child(field, k), opts, path, x);
      names := [k] + rest;
      GetInDistinct(ps, i);
      assert names[1..] == rest;
    } else {
      names := [];
    }
  }

  /** Every leaf a chain of admitted fields leads to is assigned at the
      chain's path. */
  lemma {:induction false} AssignmentComplete(v: Value, field: string, names: seq<string>, opts: Options, path: string, x: Value)
    requires Reaches(v, field, names, opts, path, x)
    ensures Field(path, x) in Assignments(v, field, opts)
    decreases |names|
  {
    if names != [] {
      var ps := v.props;
      var k := names[0];
      var i := IndexOfKey(ps, k).value;
      assert Get(ps, k) == Some(ps[i].value);
      AssignmentComplete(ps[i].value, Child(field, k), names[1..], opts, path, x);
      assert Field(path, x) in ChildAssignments(v, i, field, opts);
      PropsAssignmentsMember(v, |ps|, field, opts, Field(path, x));
    }
  }

  /** The assignments are exactly the admitted leaves, each at its path. */
  lemma AssignmentsExactly(v: Value, field: string, opts: Options, path: string, x: Value)
    requires WellFormed(v)
    ensures Field(path, x) in Assignments(v, field, opts) <==> exists names :: Reaches(v, field, names, opts, path, x)
  {
    if Field(path, x) in Assignments(v, field, opts) {
      var names := AssignmentSound(v, field, opts, path, x);
    }
    if exists names :: Reaches(v, field, names, opts, path, x) {
      var names :| Reaches(v, field, names, opts, path, x);
      AssignmentComplete(v, field, names, opts, path, x);
    }
  }

  /** Every assigned path passes the include and exclude checks itself. */
  lemma {:induction false} AssignedPathsAdmitted(v: Value, field: string, opts: Options, f: Field)
    requires f in Assignments(v, field, opts)
    ensures Admits(f.name, opts)
    decreases v
  {
    if v.Obj? {
      PropsAssignmentsMember(v, |v.props|, field, opts, f);
      var i :| 0 <= i < |v.props| && f in ChildAssignments(v, i, field, opts);
      AssignedPathsAdmitted(v.props[i].value, Child(field, v.props[i].name), opts, f);
    }
  }

  // ---------------------------------------------------------------------
  // What the accumulator holds

  /** The value of the last assignment to `k` in `xs`. */
  function LastValue(xs: seq<Field>, k: string): (r: Option<Value>)
    ensures r.Some? ==> Field(k, r.value) in xs
    ensures r.None? ==> forall i :: 0 <= i < |xs| ==> xs[i].name != k
    decreases |xs|
  {
    if xs == [] then None
    else if xs[|xs| - 1].name == k then Some(xs[|xs| - 1].value)
    else LastValue(xs[..|xs| - 1], k)
  }

  /** The last assignment to a path wins; paths never assigned keep the
      accumulator's value. */
  lemma {:induction false} AssignAllGet(acc: seq<Field>, xs: seq<Field>, k: string)
    ensures Get(AssignAll(acc, xs), k) == if LastValue(xs, k).Some? then LastValue(xs, k) else Get(acc, k)
    decreases |xs|
  {
    if xs != [] {
      AssignAllGet(acc, xs[..|xs| - 1], k);
    }
  }

  /** The update never holds an excluded path, nor a dotted path missing
      from the include list, whatever the object. */
  lemma UpdateKeysAdmitted(v: Value, field: string, opts: Options, path: string)
    requires HasKey(UpdateOf(v, field, opts), path)
    ensures Admits(path, opts)
    ensures opts.excludes.Some? ==> path !in opts.excludes.value
  {
    var xs := Assignments(v, field, opts);
    AssignAllGet([], xs, path);
    var x := LastValue(xs, path).value;
    AssignedPathsAdmitted(v, field, opts, Field(path, x));
  }

  /** Property names MongoDB paths can name unambiguously: not empty, and
      without a dot. */
  predicate IsSimpleName(k: string)
  {
    k != "" && '.' !in k
  }

  /** `p` is `field` or a path below it. */
  predicate Extends(p: string, field: string)
  {
    p == field || (|field| < |p| && p[..|field|] == field && (field == "" || p[|field|] == '.'))
  }

  lemma {:induction false} AssignedPathsExtend(v: Value, field: string, opts: Options, f: Field)
    requires f in Assignments(v, field, opts)
    ensures Extends(f.name, field)
    decreases v
  {
    if v.Obj? {
      PropsAssignmentsMember(v, |v.props|, field, opts, f);
      var i :| 0 <= i < |v.props| && f in ChildAssignments(v, i, field, opts);
      var c := Child(field, v.props[i].name);
      AssignedPathsExtend(v.props[i].value, c, opts, f);
      if field != "" {
        assert c[..|field|] == field && c[|field|] == '.';
        if f.name != c {
          assert f.name[..|c|][..|field|] == f.name[..|field|];
        }
      }
    }
  }

  /** Paths below two different simple names of one object differ. */
  lemma SeparatePaths(field: string, a: string, b: string, p: string, q: string)
    requires IsSimpleName(a) && IsSimpleName(b) && a != b
    requires Extends(p, Child(field, a)) && Extends(q, Child(field, b))
    ensures p != q
  {
    var pre := if |field| > 0 then field + "." else "";
    var c, d := Child(field, a), Child(field, b);
    assert c == pre + a && d == pre + b;
    if |a| == |b| {
      assert c != d by {
        assert c[|pre|..] == a && d[|pre|..] == b;
      }
      assert |c| == |d|;
      if |p| >= |c| && |q| >= |d| {
        assert p[..|c|] == c || p == c;
      }
    } else if |a| < |b| {
      PrefixDiffers(pre, a, b, p, q);
    } else {
      PrefixDiffers(pre, b, a, q, p);
    }
  }

  lemma PrefixDiffers(pre: string, a: string, b: string, p: string, q: string)
    requires IsSimpleName(a) && IsSimpleName(b) && |a| < |b|
    requires Extends(p, pre + a) && Extends(q, pre + b)
    ensures p != q
  {
    var c, d := pre + a, pre + b;
    assert |q| >= |d|;
    assert q[..|d|] == d;
    assert q[|c|] == d[|c|] == b[|a|];
    assert b[|a|] in b;
    assert q[|c|] != '.';
    if |p| > |c| {
      assert p[|c|] == '.';
    }
    if |p| == |c| {
      assert |p| < |q|;
    }
  }

  lemma DistinctConcat(xs: seq<Field>, ys: seq<Field>)
    requires DistinctKeys(xs) && DistinctKeys(ys)
    requires forall i, j :: 0 <= i < |xs| && 0 <= j < |ys| ==> xs[i].name != ys[j].name
    ensures DistinctKeys(xs + ys)
  {
    var s := xs + ys;
    forall i, j | 0 <= i < j < |s| ensures s[i].name != s[j].name {
      if j < |xs| {
        assert s[i] == xs[i] && s[j] == xs[j];
      } else if i < |xs| {
        assert s[i] == xs[i] && s[j] == ys[j - |xs|];
      } else {
        assert s[i] == ys[i - |xs|] && s[j] == ys[j - |xs|];
      }
    }
  }

  /** With simple property names no two leaves share a path. */
  lemma {:induction false} AssignmentsDistinct(v: Value, field: string, opts: Options)
    requires WellFormed(v) && AllKeys(v, IsSimpleName)
    ensures DistinctKeys(Assignments(v, field, opts))
    decreases v, 1, 0
  {
    if Admits(field, opts) && v.Obj? {
      PropsAssignmentsDistinct(v, |v.props|, field, opts);
    }
  }

  lemma {:induction false} PropsAssignmentsDistinct(parent: Value, n: nat, field: string, opts: Options)
    requires parent.Obj? && n <= |parent.props|
    requires WellFormed(parent) && AllKeys(parent, IsSimpleName)
    ensures DistinctKeys(PropsAssignments(parent, n, field, opts))
    decreases parent, 0, n
  {
    if n > 0 {
      var ps := parent.props;
      var xs := PropsAssignments(parent, n - 1, field, opts);
      var ys := ChildAssignments(parent, n - 1, field, opts);
      PropsAssignmentsDistinct(parent, n - 1, field, opts);
      AssignmentsDistinct(ps[n - 1].value, Child(field, ps[n - 1].name), opts);
      forall i, j | 0 <= i < |xs| && 0 <= j < |ys| ensures xs[i].name != ys[j].name {
        assert xs[i] in xs && ys[j] in ys;
        PropsAssignmentsMember(parent, n - 1, field, opts, xs[i]);
        var m :| 0 <= m < n - 1 && xs[i] in ChildAssignments(parent, m, field, opts);
        AssignedPathsExtend(ps[m].value, Child(field, ps[m].name), opts, xs[i]);
        AssignedPathsExtend(ps[n - 1].value, Child(field, ps[n - 1].name), opts, ys[j]);
        SeparatePaths(field, ps[m].name, ps[n - 1].name, xs[i].name, ys[j].name);
      }
      DistinctConcat(xs, ys);
    }
  }

  /** Playing assignments to distinct paths onto an empty accumulator lists
      them in order. */
  lemma {:induction false} AssignAllDistinct(xs: seq<Field>)
    requires DistinctKeys(xs)
    ensures AssignAll([], xs) == xs
    decreases |xs|
  {
    if xs != [] {
      var init, last := xs[..|xs| - 1], xs[|xs| - 1];
      DistinctInit(xs);
      AssignAllDistinct(init);
      AssignFresh(init, last);
      assert xs == init + [last];
    }
  }

  lemma DistinctInit(xs: seq<Field>)
    requires DistinctKeys(xs) && xs != []
    ensures DistinctKeys(xs[..|xs| - 1]) && !HasKey(xs[..|xs| - 1], xs[|xs| - 1].name)
  {
    var init, last := xs[..|xs| - 1], xs[|xs| - 1];
    forall i, j | 0 <= i < j < |init| ensures init[i].name != init[j].name {
      assert init[i] == xs[i] && init[j] == xs[j];
    }
    forall j | 0 <= j < |init| ensures init[j].name != last.name {
      assert init[j] == xs[j];
    }
  }

  lemma AssignFresh(props: seq<Field>, f: Field)
    requires !HasKey(props, f.name)
    ensures Assign(props, f.name, f.value) == props + [f]
  {
  }

  /** With simple property names the update sets each admitted leaf's path
      to that leaf, and sets nothing else. */
  lemma UpdateSetsExactly(v: Value, field: string, opts: Options, path: string, x: Value)
    requires WellFormed(v) && AllKeys(v, IsSimpleName)
    ensures Get(UpdateOf(v, field, opts), path) == Some(x) <==> exists names :: Reaches(v, field, names, opts, path, x)
  {
    var xs := Assignments(v, field, opts);
    AssignmentsDistinct(v, field, opts);
    AssignAllDistinct(xs);
    AssignmentsExactly(v, field, opts, path, x);
    if Field(path, x) in xs {
      var i :| 0 <= i < |xs| && xs[i] == Field(path, x);
      GetInDistinct(xs, i);
    }
  }

  /** Examples of the options: with `exclude: ['b']` the subtree at `b` is
      dropped, and with `include: []` a nested path is dropped while a
      top-level one is kept. */
  lemma OptionsExamples()
    ensures UpdateOf(Obj([Field("a", Num(1)), Field("b", Obj([Field("c", Num(2))]))]), "", Options(None, Some(["b"])))
            == [Field("a", Num(1))]
    ensures UpdateOf(Obj([Field("a", Num(1)), Field("b", Obj([Field("c", Num(2))]))]), "", Options(Some([]), None))
            == [Field("a", Num(1))]
  {
    var inner := Obj([Field("c", Num(2))]);
    var v := Obj([Field("a", Num(1)), Field("b", inner)]);
    var ex := Options(None, Some(["b"]));
    assert Assignments(v, "", ex) == [Field("a", Num(1))] by {
      assert ChildAssignments(v, 0, "", ex) == [Field("a", Num(1))];
      assert ChildAssignments(v, 1, "", ex) == [];
      assert PropsAssignments(v, 1, "", ex) == [Field("a", Num(1))];
    }
    var inc := Options(Some([]), None);
    assert Assignments(v, "", inc) == [Field("a", Num(1))] by {
      assert ChildAssignments(v, 0, "", inc) == [Field("a", Num(1))];
      assert Child("b", "c") == "b.c" && "b.c"[1] == '.';
      assert Assignments(inner, "b", inc) == PropsAssignments(inner, 1, "b", inc);
      assert !Admits("b.c", inc);
      assert ChildAssignments(inner, 0, "b", inc) == [];
      assert PropsAssignments(inner, 1, "b", inc) == [];
      assert ChildAssignments(v, 1, "", inc) == [];
      assert PropsAssignments(v, 1, "", inc) == [Field("a", Num(1))];
    }
    AppendNewKey([], "a", Num(1));
  }
}
