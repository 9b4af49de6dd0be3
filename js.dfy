/** The few JavaScript built-ins the page scripts rely on, with their
    JavaScript meaning written out: `String.prototype.trim`, the regex class
    `\s`, the truncating `%` operator and `String.prototype.substring(0, end)`. */
module Js {

  datatype Option<T> = None | Some(value: T)

  /** The whitespace set shared by `trim` and the regex class `\s`, reduced to
      a fixed list: space, tab, line feed, vertical tab, form feed, carriage
      return, no-break space and the byte-order mark. */
  predicate IsSpace(c: char) {
    c == ' ' || c == '\t' || c == '\n' || c == '\U{000B}' || c == '\U{000C}'
    || c == '\r' || c == '\U{00A0}' || c == '\U{FEFF}'
  }

  predicate AllSpace(s: string) {
    forall k :: 0 <= k < |s| ==> IsSpace(s[k])
  }

  /** The number of whitespace characters at the start of `s`. */
  function LeadingSpaces(s: string): (n: nat)
    ensures n <= |s|
  {
    if s != [] && IsSpace(s[0]) then 1 + LeadingSpaces(s[1..]) else 0
  }

  /** Every character of the leading run is whitespace. */
  lemma {:induction false} LeadingSpacesRun(s: string, k: int)
    requires 0 <= k < LeadingSpaces(s)
    ensures IsSpace(s[k])
  {
    if k > 0 {
      LeadingSpacesRun(s[1..], k - 1);
      assert s[k] == s[1..][k - 1];
    }
  }

  /** The leading run ends at a non-space character or at the end of `s`. */
  lemma {:induction false} LeadingSpacesStop(s: string)
    ensures LeadingSpaces(s) == |s| || !IsSpace(s[LeadingSpaces(s)])
  {
    if s != [] && IsSpace(s[0]) {
      LeadingSpacesStop(s[1..]);
      assert LeadingSpaces(s) == |s| || s[LeadingSpaces(s)] == s[1..][LeadingSpaces(s[1..])];
    }
  }

  /** The number of whitespace characters at the end of `s`. */
  function TrailingSpaces(s: string): (n: nat)
    ensures n <= |s|
  {
    if s != [] && IsSpace(s[|s| - 1]) then 1 + TrailingSpaces(s[..|s| - 1]) else 0
  }

  /** Every character of the trailing run is whitespace. */
  lemma {:induction false} TrailingSpacesRun(s: string, k: int)
    requires |s| - TrailingSpaces(s) <= k < |s|
    ensures IsSpace(s[k])
  {
    if k < |s| - 1 {
      var init := s[..|s| - 1];
      TrailingSpacesRun(init, k);
      assert s[k] == init[k];
    }
  }

  /** The trailing run starts after a non-space character or at the start
      of `s`. */
  lemma {:induction false} TrailingSpacesStop(s: string)
    ensures TrailingSpaces(s) == |s| || !IsSpace(s[|s| - TrailingSpaces(s) - 1])
  {
    if s != [] && IsSpace(s[|s| - 1]) {
      var init := s[..|s| - 1];
      TrailingSpacesStop(init);
      if TrailingSpaces(s) < |s| {
        assert s[|s| - TrailingSpaces(s) - 1] == init[|init| - TrailingSpaces(init) - 1];
      }
    }
  }

  /** The leading and trailing runs overlap only when the whole input is
      whitespace. */
  lemma RunsApart(s: string)
    requires LeadingSpaces(s) < |s|
    ensures LeadingSpaces(s) + TrailingSpaces(s) < |s|
  {
    var lead := LeadingSpaces(s);
    LeadingSpacesStop(s);
    if lead >= |s| - TrailingSpaces(s) {
      TrailingSpacesRun(s, lead);
    }
  }

  /** `String.prototype.trim`: the input with its whitespace removed at both
      ends. */
  function Trim(s: string): string {
    var lead := LeadingSpaces(s);
    if lead == |s| then
      []
    else
      RunsApart(s);
      s[lead..|s| - TrailingSpaces(s)]
  }

  /** The trimmed value is empty exactly when the input is all whitespace. */
  lemma TrimEmpty(s: string)
    ensures |Trim(s)| <= |s|
    ensures Trim(s) == [] <==> AllSpace(s)
  {
    var lead := LeadingSpaces(s);
    if lead < |s| {
      LeadingSpacesStop(s);
      RunsApart(s);
    } else {
      forall k | 0 <= k < |s| ensures IsSpace(s[k]) {
        LeadingSpacesRun(s, k);
      }
    }
  }

  /** What `trim` removes: the input is a whitespace prefix, then the
      trimmed value, then a whitespace suffix. */
  lemma TrimSlice(s: string)
    ensures exists a, b :: 0 <= a <= b <= |s| && AllSpace(s[..a]) && AllSpace(s[b..]) && Trim(s) == s[a..b]
  {
    var lead := LeadingSpaces(s);
    if lead == |s| {
      assert AllSpace(s[..lead]) by {
        forall k | 0 <= k < lead ensures IsSpace(s[..lead][k]) {
          LeadingSpacesRun(s, k);
        }
      }
      assert AllSpace(s[lead..]);
      assert Trim(s) == s[lead..lead];
    } else {
      RunsApart(s);
      var b := |s| - TrailingSpaces(s);
      assert AllSpace(s[..lead]) by {
        forall k | 0 <= k < lead ensures IsSpace(s[..lead][k]) {
          LeadingSpacesRun(s, k);
        }
      }
      assert AllSpace(s[b..]) by {
        forall k | 0 <= k < |s| - b ensures IsSpace(s[b..][k]) {
          TrailingSpacesRun(s, b + k);
        }
      }
      assert Trim(s) == s[lead..b];
    }
  }

  /** When the input is not all whitespace, the trimmed value is non-empty
      and neither starts nor ends with whitespace. */
  lemma TrimEnds(s: string)
    requires LeadingSpaces(s) < |s|
    ensures |Trim(s)| > 0 && !IsSpace(Trim(s)[0]) && !IsSpace(Trim(s)[|Trim(s)| - 1])
  {
    var lead := LeadingSpaces(s);
    var trail := TrailingSpaces(s);
    RunsApart(s);
    LeadingSpacesStop(s);
    TrailingSpacesStop(s);
    var r := Trim(s);
    assert r[0] == s[lead];
    assert r[|r| - 1] == s[|s| - trail - 1];
  }

  /** Trimming is idempotent: a trimmed value trims to itself. */
  lemma TrimIdempotent(s: string)
    ensures Trim(Trim(s)) == Trim(s)
  {
    var r := Trim(s);
    if LeadingSpaces(s) < |s| {
      TrimEnds(s);
      assert LeadingSpaces(r) == 0;
      assert TrailingSpaces(r) == 0;
    }
  }

  function Abs(x: int): nat {
    if x < 0 then -x else x
  }

  /** A product of `t >= 1` and a positive `d` is at least `d`. */
  lemma {:induction false} MulAtLeast(t: int, d: int)
    requires t >= 1 && d > 0
    ensures t * d >= d
    decreases t
  {
    if t > 1 {
      MulAtLeast(t - 1, d);
      assert t * d == (t - 1) * d + d;
    }
  }

  /** Dafny's remainder by a positive divisor is the only remainder in
      `[0, d)`. */
  lemma ModUnique(x: int, d: int, q: int, r: int)
    requires d > 0 && 0 <= r < d && x == q * d + r
    ensures x % d == r
  {
    var t := q - x / d;
    assert t * d == x % d - r by {
      assert x == (x / d) * d + x % d;
      assert t * d == q * d - (x / d) * d;
    }
    if t >= 1 {
      MulAtLeast(t, d);
    } else if t <= -1 {
      assert (-t) * d == -(t * d);
      MulAtLeast(-t, d);
    }
  }

  /** A value whose size is a multiple of the divisor's size is a multiple
      of the divisor. */
  lemma DividesBySize(x: int, n: int)
    requires n != 0 && Abs(x) % Abs(n) == 0
    ensures x % n == 0
  {
    var d := Abs(n);
    var q := Abs(x) / d;
    assert Abs(x) == q * d;
    var k := if x < 0 then -q else q;
    assert x == k * d;
    ModUnique(x, d, k, 0);
    if n < 0 {
      assert x == (x / n) * n + x % n;
      assert (x / n) * n == (-(x / n)) * d;
      ModUnique(x, d, -(x / n), x % n);
    }
  }

  /** Taking the remainder of the sizes and giving it the dividend's sign
      leaves a multiple of the divisor. */
  lemma LeavesMultiple(a: int, n: int, m: int)
    requires n != 0 && m == Abs(a) % Abs(n)
    ensures (a - (if a < 0 then -m else m)) % n == 0
  {
    var d := Abs(n);
    var q := Abs(a) / d;
    assert Abs(a) == q * d + m;
    var x := a - (if a < 0 then -m else m);
    assert Abs(x) == q * d;
    ModUnique(Abs(x), d, q, 0);
    DividesBySize(x, n);
  }

  /** JavaScript's `a % n`: the remainder of division truncated toward zero,
      which takes the sign of `a` (Dafny's own `%` is Euclidean). */
  function JsRem(a: int, n: int): (r: int)
    requires n != 0
    ensures Abs(r) < Abs(n)
    ensures a >= 0 ==> r >= 0
    ensures a <= 0 ==> r <= 0
    ensures (a - r) % n == 0
  {
    var m := Abs(a) % Abs(n);
    LeavesMultiple(a, n, m);
    if a < 0 then -m else m
  }

  /** On a non-negative left operand and a positive divisor the truncating
      and the Euclidean remainders agree. */
  lemma JsRemNonNegative(a: int, n: int)
    requires a >= 0 && n > 0
    ensures JsRem(a, n) == a % n
  {
  }

  /** A non-negative value below twice the divisor is reduced by at most one
      subtraction of the divisor. */
  lemma JsRemOnce(a: int, n: int)
    requires n > 0 && 0 <= a < 2 * n
    ensures JsRem(a, n) == if a < n then a else a - n
  {
    JsRemNonNegative(a, n);
    ModOnce(a, n);
  }

  lemma ModOnce(a: int, n: int)
    requires n > 0 && 0 <= a < 2 * n
    ensures a % n == if a < n then a else a - n
  {
    if a >= n {
      var b := a - n;
      assert b % n == b;
    }
  }

  /** `s.substring(0, end)`: JavaScript clamps `end` into `[0, |s|]`. */
  function Prefix(s: string, end: int): (r: string)
    ensures r <= s
    ensures |r| == if end < 0 then 0 else if end > |s| then |s| else end
  {
    if end < 0 then [] else if end > |s| then s else s[..end]
  }

  /** `indexOf` and `findIndex` with an equality test: the position of the
      first element equal to `x`, or `|s|` when there is none. */
  function IndexOf<T(==)>(s: seq<T>, x: T): (i: nat)
    ensures i <= |s|
    ensures i < |s| ==> s[i] == x
    ensures forall k :: 0 <= k < i ==> s[k] != x
  {
    if s == [] then 0
    else if s[0] == x then 0
    else 1 + IndexOf(s[1..], x)
  }
}
