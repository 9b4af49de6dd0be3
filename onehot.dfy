/** Rows of on/off flags of which at most one is on: the slider's dots and
    the navigation links' `active` class. */
module OneHot {

  /** `n` flags of which exactly the one at `current` is set (none, when
      `current` is out of range). */
  function OnlyAt(n: nat, current: int): (r: seq<bool>)
    ensures |r| == n
    ensures forall k :: 0 <= k < n ==> (r[k] <==> k == current)
  {
    seq(n, k => k == current)
  }

  /** The number of flags set. */
  function CountActive(marks: seq<bool>): nat {
    if marks == [] then 0 else CountActive(marks[..|marks| - 1]) + (if marks[|marks| - 1] then 1 else 0)
  }

  /** With `current` in range exactly one flag is set, and otherwise none. */
  lemma {:induction false} ExactlyOneActive(n: nat, current: int)
    ensures CountActive(OnlyAt(n, current)) == if 0 <= current < n then 1 else 0
  {
    CountPrefix(n, n, current);
    assert OnlyAt(n, current)[..n] == OnlyAt(n, current);
  }

  /** Among the first `m` flags, one is set when `current` is among them
      and none otherwise. */
  lemma {:induction false} CountPrefix(n: nat, m: nat, current: int)
    requires m <= n
    ensures CountActive(OnlyAt(n, current)[..m]) == if 0 <= current < m then 1 else 0
  {
    var marks := OnlyAt(n, current);
    if m > 0 {
      CountPrefix(n, m - 1, current);
      assert marks[..m][..m - 1] == marks[..m - 1];
    }
  }
}
