/** Records, result types and sequence helpers shared by every component of the task-manager front end. */
module Common {

  datatype Option<+T> = None | Some(value: T) {
    function GetOr(default: T): T {
      match this
      case Some(v) => v
      case None => default
    }
  }

  /** The outcome of one remote call: the response body, or the error that was caught. */
  datatype Result<+T> = Ok(value: T) | Err(message: string)

  const Pending: string := "pending"
  const Completed: string := "completed"

  /** Text that JavaScript treats as truthy. */
  type NonEmptyString = s: string | s != [] witness "-"

  /** A due date as the server sends it: its text and the instant (milliseconds since the epoch, UTC) it denotes.
      The components test `due_date` for truthiness, so a null and an empty `due_date` both mean "no due date";
      both are represented as `None`, which is why the text of a `Due` is never empty. */
  datatype Due = Due(text: NonEmptyString, at: int)

  /** A task record. `ownerName` is only filled in by the admin endpoint that lists every user's tasks. */
  datatype Task = Task(id: int, title: string, description: Option<string>, dueDate: Option<Due>,
                       status: string, ownerName: string)

  datatype User = User(id: int, name: string, email: string, isAdmin: bool, taskCount: int)

  // ---------------------------------------------------------------------------------------------
  // Array.prototype.filter and stable subsequences

  /** `s.filter(p)`: the elements of `s` that satisfy `p`, in their original order. */
  function Filter<T>(s: seq<T>, p: T -> bool): (r: seq<T>)
    ensures |r| <= |s|
  {
    if s == [] then []
    else if p(s[0]) then [s[0]] + Filter(s[1..], p)
    else Filter(s[1..], p)
  }

  /** `a` can be obtained from `b` by deleting elements, without reordering what remains. */
  predicate IsSubsequence<T(==)>(a: seq<T>, b: seq<T>)
    decreases |b|
  {
    if a == [] then true
    else if b == [] then false
    else if a[0] == b[0] then IsSubsequence(a[1..], b[1..])
    else IsSubsequence(a, b[1..])
  }

  lemma {:induction false} FilterMembers<T>(s: seq<T>, p: T -> bool)
    ensures forall x :: x in Filter(s, p) <==> x in s && p(x)
  {
    if s != [] {
      FilterMembers(s[1..], p);
      assert s == [s[0]] + s[1..];
    }
  }

  lemma {:induction false} FilterIsSubsequence<T>(s: seq<T>, p: T -> bool)
    ensures IsSubsequence(Filter(s, p), s)
  {
    if s != [] {
      FilterIsSubsequence(s[1..], p);
      var r := Filter(s, p);
      if p(s[0]) {
        assert r[0] == s[0] && r[1..] == Filter(s[1..], p);
      } else if r != [] {
        FilterMembers(s[1..], p);
        assert r[0] in Filter(s[1..], p);
        assert r[0] != s[0];
      }
    }
  }

  /** Each value occurs in the result exactly as often as in the input when it passes, and never otherwise. */
  lemma {:induction false} FilterMultiset<T>(s: seq<T>, p: T -> bool)
    ensures forall x :: multiset(Filter(s, p))[x] == if p(x) then multiset(s)[x] else 0
  {
    if s != [] {
      FilterMultiset(s[1..], p);
      assert s == [s[0]] + s[1..];
    }
  }

  /** When every element passes, filtering changes nothing. */
  lemma {:induction false} FilterAllPass<T>(s: seq<T>, p: T -> bool)
    requires forall i :: 0 <= i < |s| ==> p(s[i])
    ensures Filter(s, p) == s
  {
    if s != [] {
      FilterAllPass(s[1..], p);
      assert s == [s[0]] + s[1..];
    }
  }

  /** When no element passes, the result is empty. */
  lemma {:induction false} FilterNonePass<T>(s: seq<T>, p: T -> bool)
    requires forall i :: 0 <= i < |s| ==> !p(s[i])
    ensures Filter(s, p) == []
  {
    if s != [] {
      FilterNonePass(s[1..], p);
    }
  }

  lemma {:induction false} FilterIdempotent<T>(s: seq<T>, p: T -> bool)
    ensures Filter(Filter(s, p), p) == Filter(s, p)
  {
    if s != [] {
      FilterIdempotent(s[1..], p);
      if p(s[0]) {
        assert ([s[0]] + Filter(s[1..], p))[1..] == Filter(s[1..], p);
      }
    }
  }

  /** Predicates that agree on every element select the same elements. */
  lemma {:induction false} FilterSamePredicate<T>(s: seq<T>, p: T -> bool, q: T -> bool)
    requires forall i :: 0 <= i < |s| ==> p(s[i]) == q(s[i])
    ensures Filter(s, p) == Filter(s, q)
  {
    if s != [] {
      FilterSamePredicate(s[1..], p, q);
    }
  }

  /** Two filters whose predicates never hold together select at most |s| elements between them,
      and exactly |s| when every element satisfies one of them. */
  lemma {:induction false} FilterDisjointCount<T>(s: seq<T>, p: T -> bool, q: T -> bool)
    requires forall i :: 0 <= i < |s| ==> !(p(s[i]) && q(s[i]))
    ensures |Filter(s, p)| + |Filter(s, q)| <= |s|
    ensures (forall i :: 0 <= i < |s| ==> p(s[i]) || q(s[i])) ==> |Filter(s, p)| + |Filter(s, q)| == |s|
  {
    if s != [] {
      FilterDisjointCount(s[1..], p, q);
    }
  }

  /** A predicate implied by another selects at least as many elements. */
  lemma {:induction false} FilterWeakerCount<T>(s: seq<T>, p: T -> bool, q: T -> bool)
    requires forall i :: 0 <= i < |s| ==> p(s[i]) ==> q(s[i])
    ensures |Filter(s, p)| <= |Filter(s, q)|
  {
    if s != [] {
      FilterWeakerCount(s[1..], p, q);
    }
  }

  // ---------------------------------------------------------------------------------------------
  // String.prototype.toLowerCase and String.prototype.includes, on ASCII letters

  function LowerChar(c: char): (d: char)
    ensures 'A' <= c <= 'Z' ==> 'a' <= d <= 'z' && d as int - 'a' as int == c as int - 'A' as int
    ensures !('A' <= c <= 'Z') ==> d == c
  {
    if 'A' <= c <= 'Z' then (c as int + 32) as char else c
  }

  /** `s.toLowerCase()`, restricted to the ASCII letters. */
  function Lower(s: string): (r: string)
    ensures |r| == |s|
    ensures forall i :: 0 <= i < |s| ==> r[i] == LowerChar(s[i])
  {
    seq(|s|, i requires 0 <= i < |s| => LowerChar(s[i]))
  }

  lemma LowerIdempotent(s: string)
    ensures Lower(Lower(s)) == Lower(s)
    ensures forall i :: 0 <= i < |s| ==> !('A' <= Lower(s)[i] <= 'Z')
  {
  }

  predicate IsPrefix(p: string, s: string) {
    |p| <= |s| && s[..|p|] == p
  }

  /** `s.includes(term)`: `term` occurs somewhere in `s` as a contiguous piece. */
  predicate Includes(s: string, term: string)
    decreases |s|
  {
    IsPrefix(term, s) || (s != [] && Includes(s[1..], term))
  }

  /** `term` occurs in `s` starting at index `i`. */
  predicate OccursAt(s: string, term: string, i: int) {
    0 <= i <= |s| - |term| && s[i..i + |term|] == term
  }

  /** The recursive definition agrees with "some window of `s` equals `term`". */
  lemma {:induction false} IncludesIff(s: string, term: string)
    ensures Includes(s, term) <==> exists i :: OccursAt(s, term, i)
  {
    if s != [] {
      IncludesIff(s[1..], term);
      if Includes(s, term) {
        if IsPrefix(term, s) {
          assert OccursAt(s, term, 0);
        } else {
          var i :| OccursAt(s[1..], term, i);
          assert s[i + 1..i + 1 + |term|] == s[1..][i..i + |term|];
          assert OccursAt(s, term, i + 1);
        }
      } else {
        forall i | 0 <= i <= |s| - |term|
          ensures !OccursAt(s, term, i)
        {
          if i == 0 {
            assert !IsPrefix(term, s);
          } else {
            assert s[i..i + |term|] == s[1..][i - 1..i - 1 + |term|];
            assert !OccursAt(s[1..], term, i - 1);
          }
        }
      }
    } else {
      if exists i :: OccursAt(s, term, i) {
        var i :| OccursAt(s, term, i);
        assert IsPrefix(term, s);
      }
      if Includes(s, term) {
        assert OccursAt(s, term, 0);
      }
    }
  }

  lemma {:induction false} IncludesEmpty(s: string)
    ensures Includes(s, "")
  {
    assert IsPrefix("", s);
  }

  // ---------------------------------------------------------------------------------------------
  // Math.round(c / t * 100)

  /** `Math.round(c / t * 100)` computed on exact rationals: the nearest integer to 100c/t, halves rounding up. */
  function RoundPercent(c: nat, t: nat): int
    requires t > 0
  {
    (200 * c + t) / (2 * t)
  }

  /** The rounded value is within half a unit of 100c/t (Math.round is floor(x + 1/2)). */
  lemma RoundPercentNearest(c: nat, t: nat)
    requires t > 0
    ensures 2 * t * RoundPercent(c, t) <= 200 * c + t < 2 * t * (RoundPercent(c, t) + 1)
  {
    var n, d := 200 * c + t, 2 * t;
    var q := n / d;
    assert n == d * q + n % d;
    assert 2 * t * (q + 1) == d * q + d;
  }

  lemma {:induction false} RoundPercentBounds(c: nat, t: nat)
    requires 0 < t && c <= t
    ensures 0 <= RoundPercent(c, t) <= 100
    ensures c == 0 ==> RoundPercent(c, t) == 0
    ensures c == t ==> RoundPercent(c, t) == 100
  {
    var r := RoundPercent(c, t);
    RoundPercentNearest(c, t);
    if r > 100 {
      assert 2 * t * r >= 2 * t * 101 by {
        MulMonotone(2 * t, 101, r);
      }
      assert false;
    }
    if r < 0 {
      assert 2 * t * (r + 1) <= 0 by {
        MulMonotone(2 * t, r + 1, 0);
      }
      assert false;
    }
    if c == 0 && r >= 1 {
      MulMonotone(2 * t, 1, r);
      assert false;
    }
    if c == t && r <= 99 {
      MulMonotone(2 * t, r + 1, 100);
      assert false;
    }
  }

  lemma MulMonotone(k: nat, a: int, b: int)
    requires a <= b
    ensures k * a <= k * b
  {
    assert k * b - k * a == k * (b - a);
  }

  // ---------------------------------------------------------------------------------------------
  // Time

  const MsPerDay: int := 86400000

  /** `Math.ceil(x / d)` for a positive divisor. */
  function CeilDiv(x: int, d: int): (q: int)
    requires d > 0
    ensures (q - 1) * d < x <= q * d
  {
    -((-x) / d)
  }

  /** The local calendar day (days since the epoch) that contains instant `at`, for a local UTC offset in ms. */
  function CalendarDay(at: int, offset: int): int {
    (at + offset) / MsPerDay
  }

  lemma CalendarDayMonotone(a: int, b: int, offset: int)
    requires a <= b
    ensures CalendarDay(a, offset) <= CalendarDay(b, offset)
  {
    var x, y := a + offset, b + offset;
    assert x == MsPerDay * (x / MsPerDay) + x % MsPerDay;
    assert y == MsPerDay * (y / MsPerDay) + y % MsPerDay;
  }

  /** The calendar day of `at` is the unique day whose local span contains it. */
  lemma CalendarDaySpan(at: int, offset: int)
    ensures CalendarDay(at, offset) * MsPerDay - offset <= at < (CalendarDay(at, offset) + 1) * MsPerDay - offset
  {
    var x := at + offset;
    assert x == MsPerDay * (x / MsPerDay) + x % MsPerDay;
  }
}
