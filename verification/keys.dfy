/** `hash` and `getNextUpdateId` (database.js, lines 365-374 and 649-651):
    the indexable hash of a key, and the successor of a cycling 32-bit
    update ID. */
module Keys {
  import opened Wrappers
  import opened Json
  import opened Text
  import opened Errors

  const MODULE_TYPE := "bedrock.database"

  /** A SHA-1 digest written as 40 lower-case hex digits. */
  type Sha1Hex = s: string | |s| == 40 && forall i :: 0 <= i < |s| ==> IsLowerHexDigit(s[i])
    witness "0000000000000000000000000000000000000000"

  /** The error `hash` throws for a key that is not a string. */
  function InvalidKey(key: Value): Error
  {
    BedrockError("Invalid key given to database hash method.", MODULE_TYPE + ".InvalidKey",
      Obj([Field("key", key)]), None)
  }

  /** `hash(key)`: the hex SHA-1 digest of the key's UTF-8 bytes (`sha1`
      stands for the crypto library), followed by the key's length in UTF-16
      code units in hex. A key that is not a string is refused. */
  function Hash(key: Value, sha1: string -> Sha1Hex): (r: Result<string, Error>)
    ensures !key.Str? <==> r.Err?
    ensures r.Err? ==> r.error == InvalidKey(key)
    ensures r.Ok? ==> |r.value| > 40 && r.value[..40] == sha1(key.s)
    ensures r.Ok? ==> (forall i :: 40 <= i < |r.value| ==> IsLowerHexDigit(r.value[i]))
    ensures r.Ok? && |r.value| > 41 ==> r.value[40] != '0'
    ensures r.Ok? ==> ParseHex(r.value[40..]) == Utf16Length(key.s)
  {
    if !key.Str? then Err(InvalidKey(key))
    else
      var suffix := ToHex(Utf16Length(key.s));
      var r := sha1(key.s) + suffix;
      assert r[40..] == suffix;
      ParseToHex(Utf16Length(key.s));
      Ok(r)
  }

  /** Two strings of different lengths never hash alike, whatever the
      digests: the length suffix tells them apart. */
  lemma HashSeparatesLengths(a: string, b: string, sha1: string -> Sha1Hex)
    requires Utf16Length(a) != Utf16Length(b)
    ensures Hash(Str(a), sha1) != Hash(Str(b), sha1)
  {
    var ha, hb := Hash(Str(a), sha1).value, Hash(Str(b), sha1).value;
    assert ParseHex(ha[40..]) != ParseHex(hb[40..]);
  }

  const MAX_UPDATE_ID := 0xffff_ffff

  /** `getNextUpdateId(updateId)`: the successor in the 32-bit cycle of
      update IDs; anything at or above the top wraps to 0. */
  function GetNextUpdateId(updateId: int): (r: int)
    ensures 0 <= r <= MAX_UPDATE_ID || r == updateId + 1
    ensures 0 <= updateId <= MAX_UPDATE_ID ==> 0 <= r <= MAX_UPDATE_ID && r == (updateId + 1) % (MAX_UPDATE_ID + 1)
    ensures updateId >= MAX_UPDATE_ID ==> r == 0
    ensures r != updateId
  {
    if updateId < MAX_UPDATE_ID then updateId + 1 else 0
  }

  /** The ID after `n` further updates. */
  function UpdateIdAfter(updateId: int, n: nat): int
    decreases n
  {
    if n == 0 then updateId else GetNextUpdateId(UpdateIdAfter(updateId, n - 1))
  }

  /** Starting in range, `n` updates advance the ID by `n` modulo 2^32. */
  lemma {:induction false} UpdateIdsCycle(updateId: int, n: nat)
    requires 0 <= updateId <= MAX_UPDATE_ID
    ensures UpdateIdAfter(updateId, n) == (updateId + n) % (MAX_UPDATE_ID + 1)
    decreases n
  {
    if n > 0 {
      UpdateIdsCycle(updateId, n - 1);
    }
  }

  /** An ID in range comes back after exactly 2^32 updates, and not before. */
  lemma UpdateIdPeriod(updateId: int, n: nat)
    requires 0 <= updateId <= MAX_UPDATE_ID
    ensures UpdateIdAfter(updateId, MAX_UPDATE_ID + 1) == updateId
    ensures 0 < n <= MAX_UPDATE_ID ==> UpdateIdAfter(updateId, n) != updateId
  {
    UpdateIdFullCycle(updateId);
    if 0 < n <= MAX_UPDATE_ID {
      UpdateIdNoEarlyReturn(updateId, n);
    }
  }

  lemma UpdateIdFullCycle(updateId: int)
    requires 0 <= updateId <= MAX_UPDATE_ID
    ensures UpdateIdAfter(updateId, MAX_UPDATE_ID + 1) == updateId
  {
    var m := MAX_UPDATE_ID + 1;
    UpdateIdsCycle(updateId, m);
    assert updateId + m == 1 * m + updateId;
  }

  lemma UpdateIdNoEarlyReturn(updateId: int, n: nat)
    requires 0 <= updateId <= MAX_UPDATE_ID && 0 < n <= MAX_UPDATE_ID
    ensures UpdateIdAfter(updateId, n) != updateId
  {
    var m := MAX_UPDATE_ID + 1;
    UpdateIdsCycle(updateId, n);
    if updateId + n >= m {
      assert updateId + n == 1 * m + (updateId + n - m);
    }
  }
}
