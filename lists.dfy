/** Python's in-place `list.reverse()`, as a function on sequences. */
module Lists {

  function Reversed<T>(s: seq<T>): seq<T>
  {
    if s == [] then [] else Reversed(s[1..]) + [s[0]]
  }

  /** Reversal keeps the length and puts element `k` at position `|s| - 1 - k`. */
  lemma {:induction false} ReversedAt<T>(s: seq<T>, k: nat)
    requires k < |s|
    ensures |Reversed(s)| == |s| && Reversed(s)[k] == s[|s| - 1 - k]
  {
    if |s| > 1 {
      ReversedAt(s[1..], if k < |s| - 1 then k else 0);
    }
  }

  /** What follows position `i` of a reversed list, reversed back, is the part
      of the original list before position `|s| - 1 - i`. */
  lemma ReversedSuffix<T>(s: seq<T>, i: nat)
    requires i < |s|
    ensures |Reversed(s)| == |s|
    ensures Reversed(Reversed(s)[i + 1..]) == s[..|s| - 1 - i]
  {
    ReversedAt(s, 0);
    var m := |s| - 1 - i;
    var rest := Reversed(s)[i + 1..];
    if m > 0 {
      ReversedAt(rest, 0);
    }
    forall k | 0 <= k < m
      ensures Reversed(rest)[k] == s[..m][k]
    {
      ReversedAt(rest, k);
      ReversedAt(s, i + m - k);
    }
  }
}
