/** The simulated PLC register bank shared by the scan routines: a dictionary
    from tag names to boolean or analog values. A write overwrites
    unconditionally; a read of a tag that was never written yields None.
    The scan routines read their inputs through ReadBool / ReadReal, which
    turn a missing or wrongly typed tag into a scan error. */
module TagStore {

  datatype Option<+T> = None | Some(value: T)

  /** The error kinds a scan can stop with; no output is committed then. */
  datatype ScanError =
    | UndefinedTag(name: string)
    | TypeMismatch(name: string)

  /** A failure-compatible result, so reads can be chained with `:-`. */
  datatype Result<+R> = Success(value: R) | Failure(error: ScanError) {
    predicate IsFailure() {
      Failure?
    }

    function PropagateFailure<U>(): Result<U>
      requires Failure?
    {
      Failure(error)
    }

    function Extract(): R
      requires Success?
    {
      value
    }
  }

  /** A tag holds either a BOOL or a REAL. */
  datatype Value = B(b: bool) | R(r: real)

  type Store = map<string, Value>

  /** A freshly constructed register bank holds no tags at all. */
  function NewStore(): (s: Store)
    ensures forall k :: GetTag(s, k) == None
  {
    map[]
  }

  /** Reads a tag; an unknown tag reads as None. */
  function GetTag(s: Store, k: string): (r: Option<Value>)
    ensures r == None <==> k !in s
    ensures r.Some? ==> r.value == s[k]
  {
    if k in s then Some(s[k]) else None
  }

  /** Writes a tag, creating it if it does not exist yet. */
  function SetTag(s: Store, k: string, v: Value): (r: Store)
    ensures GetTag(r, k) == Some(v)
    ensures forall k' :: k' != k ==> GetTag(r, k') == GetTag(s, k')
    ensures r.Keys == s.Keys + {k}
  {
    s[k := v]
  }

  /** Applies a sequence of writes from left to right. */
  function SetTags(s: Store, writes: seq<(string, Value)>): (r: Store)
    decreases |writes|
  {
    if |writes| == 0 then s
    else SetTags(SetTag(s, writes[0].0, writes[0].1), writes[1..])
  }

  /** True when some write in `writes` targets `k`. */
  predicate Written(writes: seq<(string, Value)>, k: string) {
    exists j :: 0 <= j < |writes| && writes[j].0 == k
  }

  /** The value of the last write to `k`; only meaningful when `k` is written. */
  function LastWrite(writes: seq<(string, Value)>, k: string): Value
    requires Written(writes, k)
    decreases |writes|
  {
    var n := |writes| - 1;
    if writes[n].0 == k then writes[n].1
    else
      assert Written(writes[..n], k) by {
        var j :| 0 <= j < |writes| && writes[j].0 == k;
        assert j < n && writes[..n][j] == writes[j];
      }
      LastWrite(writes[..n], k)
  }

  /** A later write to the same tag hides an earlier one completely. */
  lemma SetTagOverwrites(s: Store, k: string, v1: Value, v2: Value)
    ensures SetTag(SetTag(s, k, v1), k, v2) == SetTag(s, k, v2)
  {
  }

  /** Splitting a batch of writes at its last element. */
  lemma SetTagsSnoc(s: Store, writes: seq<(string, Value)>)
    requires |writes| > 0
    ensures SetTags(s, writes) ==
            SetTag(SetTags(s, writes[..|writes| - 1]), writes[|writes| - 1].0, writes[|writes| - 1].1)
    decreases |writes|
  {
    if |writes| > 1 {
      var s1 := SetTag(s, writes[0].0, writes[0].1);
      SetTagsSnoc(s1, writes[1..]);
      assert writes[1..][..|writes[1..]| - 1] == writes[..|writes| - 1][1..];
    }
  }

  /** After any sequence of writes, a tag reads as its last written value,
      and a tag that was never written reads exactly as before; in
      particular a never-set tag of a fresh store reads as None. */
  lemma {:induction false} GetAfterSetTags(s: Store, writes: seq<(string, Value)>, k: string)
    ensures Written(writes, k) ==> GetTag(SetTags(s, writes), k) == Some(LastWrite(writes, k))
    ensures !Written(writes, k) ==> GetTag(SetTags(s, writes), k) == GetTag(s, k)
    decreases |writes|
  {
    if |writes| > 0 {
      var n := |writes| - 1;
      var prefix := writes[..n];
      SetTagsSnoc(s, writes);
      GetAfterSetTags(s, prefix, k);
      if writes[n].0 != k {
        if Written(writes, k) {
          var j :| 0 <= j < |writes| && writes[j].0 == k;
          assert prefix[j] == writes[j];
        }
      }
    }
  }

  /** Reads a BOOL tag, failing on a missing or analog tag. */
  function ReadBool(s: Store, k: string): (r: Result<bool>)
    ensures r.Success? <==> k in s && s[k].B?
    ensures r.Success? ==> s[k] == B(r.value)
    ensures r.Failure? ==> r.error == (if k in s then TypeMismatch(k) else UndefinedTag(k))
  {
    match GetTag(s, k)
    case None => Failure(UndefinedTag(k))
    case Some(B(b)) => Success(b)
    case Some(R(_)) => Failure(TypeMismatch(k))
  }

  /** Reads a REAL tag, failing on a missing or boolean tag. */
  function ReadReal(s: Store, k: string): (r: Result<real>)
    ensures r.Success? <==> k in s && s[k].R?
    ensures r.Success? ==> s[k] == R(r.value)
    ensures r.Failure? ==> r.error == (if k in s then TypeMismatch(k) else UndefinedTag(k))
  {
    match GetTag(s, k)
    case None => Failure(UndefinedTag(k))
    case Some(R(x)) => Success(x)
    case Some(B(_)) => Failure(TypeMismatch(k))
  }

  /** Two stores that read alike at every tag are the same store. */
  lemma StoreExtensionality(s: Store, t: Store)
    requires forall k :: GetTag(s, k) == GetTag(t, k)
    ensures s == t
  {
    assert s.Keys == t.Keys by {
      forall k ensures k in s <==> k in t {
        assert GetTag(s, k) == GetTag(t, k);
      }
    }
    forall k | k in s ensures s[k] == t[k] {
      assert GetTag(s, k) == GetTag(t, k);
    }
  }

  /** True when `s` and `t` hold the same value (or both nothing) at every tag of `ks`. */
  predicate AgreeOn(s: Store, t: Store, ks: set<string>) {
    forall k :: k in ks ==> GetTag(s, k) == GetTag(t, k)
  }
}
