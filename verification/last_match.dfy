/** The backward scan of the ledger readers: read lines from the end and
    keep the first one that parses. Over the sequence of per-line parse
    results this is the last element that is present. */
module LastMatch {
  import opened Wrappers

  function LastSome<T>(parsed: seq<Option<T>>): Option<T> {
    if |parsed| == 0 then None
    else if parsed[|parsed| - 1].Some? then parsed[|parsed| - 1]
    else LastSome(parsed[..|parsed| - 1])
  }

  /** An element that is present, with none present after it, is what is found. */
  lemma {:induction false} LastSomeAt<T>(parsed: seq<Option<T>>, k: nat)
    requires k < |parsed| && parsed[k].Some?
    requires forall j :: k < j < |parsed| ==> parsed[j].None?
    ensures LastSome(parsed) == parsed[k]
    decreases |parsed|
  {
    var n := |parsed|;
    if k < n - 1 {
      LastSomeAt(parsed[..n - 1], k);
    }
  }

  /** With no element present, nothing is found. */
  lemma {:induction false} LastSomeNone<T>(parsed: seq<Option<T>>)
    requires forall j :: 0 <= j < |parsed| ==> parsed[j].None?
    ensures LastSome(parsed).None?
    decreases |parsed|
  {
    if |parsed| > 0 {
      LastSomeNone(parsed[..|parsed| - 1]);
    }
  }

  /** The last present element is found, and nothing when none is present. */
  lemma {:induction false} LastSomeIsLast<T>(parsed: seq<Option<T>>)
    ensures var r := LastSome(parsed);
      || (exists i :: 0 <= i < |parsed| && parsed[i].Some? && r == parsed[i] &&
            forall j :: i < j < |parsed| ==> parsed[j].None?)
      || (r.None? && forall j :: 0 <= j < |parsed| ==> parsed[j].None?)
    decreases |parsed|
  {
    if |parsed| > 0 {
      var n := |parsed|;
      if parsed[n - 1].None? {
        var front := parsed[..n - 1];
        LastSomeIsLast(front);
        assert forall j :: 0 <= j < n - 1 ==> front[j] == parsed[j];
      }
    }
  }
}
