/** Trimming a text, as `str.strip` and its variants do for a given class of characters. */
module Text {

  function TrimLeft(drop: char -> bool, s: string): string {
    if s != [] && drop(s[0]) then TrimLeft(drop, s[1..]) else s
  }

  function TrimRight(drop: char -> bool, s: string): string {
    if s != [] && drop(s[|s| - 1]) then TrimRight(drop, s[..|s| - 1]) else s
  }

  function Trim(drop: char -> bool, s: string): string {
    TrimRight(drop, TrimLeft(drop, s))
  }

  lemma {:induction false} TrimLeftFrom(drop: char -> bool, s: string) returns (k: nat)
    ensures k <= |s| && TrimLeft(drop, s) == s[k..]
    ensures (forall i :: 0 <= i < k ==> drop(s[i])) && (k < |s| ==> !drop(s[k]))
    decreases |s|
  {
    k := 0;
    if s != [] && drop(s[0]) {
      var rest := TrimLeftFrom(drop, s[1..]);
      assert s[1..][rest..] == s[rest + 1..];
      k := rest + 1;
    }
  }

  lemma {:induction false} TrimRightTo(drop: char -> bool, s: string) returns (k: nat)
    ensures k <= |s| && TrimRight(drop, s) == s[..k]
    ensures (forall i :: k <= i < |s| ==> drop(s[i])) && (k > 0 ==> !drop(s[k - 1]))
    decreases |s|
  {
    k := |s|;
    if s != [] && drop(s[|s| - 1]) {
      k := TrimRightTo(drop, s[..|s| - 1]);
      assert s[..|s| - 1][..k] == s[..k];
    }
  }

  /** Trimming leaves the part between the first and the last character that is not dropped, or nothing. */
  lemma TrimIsExact(drop: char -> bool, s: string) returns (from: nat, to: nat)
    ensures from <= to <= |s| && Trim(drop, s) == s[from..to]
    ensures forall i :: 0 <= i < from || to <= i < |s| ==> drop(s[i])
    ensures from < to ==> !drop(s[from]) && !drop(s[to - 1])
  {
    hide TrimLeft, TrimRight;
    var k := TrimLeftFrom(drop, s);
    var m := TrimRightTo(drop, s[k..]);
    from, to := k, k + m;
    assert s[k..][..m] == s[from..to];
    forall i | to <= i < |s| ensures drop(s[i]) {
      assert s[i] == s[k..][i - k];
    }
    if from < to {
      assert s[to - 1] == s[k..][m - 1];
      if m > 0 && drop(s[k]) {
        assert false;
      }
    }
  }

  lemma TrimRightKeeps(drop: char -> bool, s: string)
    requires s != [] && !drop(s[0])
    ensures TrimRight(drop, s) != [] && TrimRight(drop, s)[0] == s[0]
  {
    var k := TrimRightTo(drop, s);
  }

  /** A text with nothing to drop at its ends is left alone. */
  lemma TrimKeeps(drop: char -> bool, s: string)
    requires s != [] ==> !drop(s[0]) && !drop(s[|s| - 1])
    ensures Trim(drop, s) == s
  {
  }

  predicate OccursAt(u: string, t: string, i: nat) {
    i + |u| <= |t| && forall j :: 0 <= j < |u| ==> u[j] == t[i + j]
  }

  predicate Occurs(u: string, t: string) {
    exists i: nat | i <= |t| :: OccursAt(u, t, i)
  }
}
