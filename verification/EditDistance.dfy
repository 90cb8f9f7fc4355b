/** The edit distance behind isSimilar: the one-row program, its recursion, and what it measures. */
module EditDistance {
  import opened Basics

  function Min3(a: nat, b: nat, c: nat): (m: nat)
    ensures m <= a && m <= b && m <= c && (m == a || m == b || m == c)
  {
    if a <= b && a <= c then a else if b <= c then b else c
  }

  function Cost<T(==)>(x: T, y: T): nat {
    if x == y then 0 else 1
  }

  function Init<T>(s: seq<T>): seq<T>
    requires s != []
  {
    s[..|s| - 1]
  }

  function Last<T>(s: seq<T>): T
    requires s != []
  {
    s[|s| - 1]
  }

  function Distance<T(==)>(a: seq<T>, b: seq<T>): nat
    decreases |a| + |b|
  {
    if a == [] then |b|
    else if b == [] then |a|
    else Min3(Distance(Init(a), b) + 1, Distance(a, Init(b)) + 1,
              Distance(Init(a), Init(b)) + Cost(Last(a), Last(b)))
  }

  // ---- the program ----

  /** The table cell of the prefixes of length i and j. */
  ghost function Cell<T>(left: seq<T>, right: seq<T>, i: nat, j: nat): nat
    requires i <= |left| && j <= |right|
  {
    Distance(left[..i], right[..j])
  }

  lemma CellRecurrence<T>(left: seq<T>, right: seq<T>, i: nat, j: nat)
    requires i <= |left| && j <= |right|
    ensures i == 0 ==> Cell(left, right, i, j) == j
    ensures j == 0 ==> Cell(left, right, i, j) == i
    ensures i > 0 && j > 0 ==>
      Cell(left, right, i, j) ==
        Min3(Cell(left, right, i - 1, j) + 1, Cell(left, right, i, j - 1) + 1,
             Cell(left, right, i - 1, j - 1) + Cost(left[i - 1], right[j - 1]))
  {
    if i > 0 && j > 0 {
      assert Init(left[..i]) == left[..i - 1] && Init(right[..j]) == right[..j - 1];
    }
  }

  method Levenshtein<T(==)>(left: seq<T>, right: seq<T>) returns (distance: nat)
    ensures distance == Distance(left, right)
  {
    var dp := new nat[|right| + 1](index => index);
    forall j | 0 <= j <= |right| ensures Cell(left, right, 0, j) == j {
      CellRecurrence(left, right, 0, j);
    }
    for i := 1 to |left| + 1
      invariant forall j :: 0 <= j <= |right| ==> dp[j] == Cell(left, right, i - 1, j)
    {
      var previous := dp[0];
      dp[0] := i;
      CellRecurrence(left, right, i, 0);
      for j := 1 to |right| + 1
        invariant forall k :: 0 <= k < j ==> dp[k] == Cell(left, right, i, k)
        invariant forall k :: j <= k <= |right| ==> dp[k] == Cell(left, right, i - 1, k)
        invariant previous == Cell(left, right, i - 1, j - 1)
      {
        CellRecurrence(left, right, i, j);
        var current := dp[j];
        dp[j] := Min3(dp[j] + 1, dp[j - 1] + 1, previous + if left[i - 1] == right[j - 1] then 0 else 1);
        previous := current;
      }
    }
    assert left[..|left|] == left && right[..|right|] == right;
    distance := dp[|right|];
  }

  // ---- what it measures: the cheapest edit script ----

  datatype Edit<T> = Keep | Replace(replacement: T) | Insert(added: T) | Delete

  /** The text a script produces from a, read from the right; None if it does not fit a. */
  function Apply<T>(script: seq<Edit<T>>, a: seq<T>): Option<seq<T>> {
    if script == [] then (if a == [] then Some([]) else None)
    else match Last(script)
      case Insert(y) => Extend(Apply(Init(script), a), [y])
      case Delete => if a == [] then None else Apply(Init(script), Init(a))
      case Keep => if a == [] then None else Extend(Apply(Init(script), Init(a)), [Last(a)])
      case Replace(y) => if a == [] then None else Extend(Apply(Init(script), Init(a)), [y])
  }

  function Extend<T>(text: Option<seq<T>>, suffix: seq<T>): Option<seq<T>> {
    if text.None? then None else Some(text.value + suffix)
  }

  function Edits<T>(script: seq<Edit<T>>): nat {
    if script == [] then 0 else Edits(Init(script)) + (if Last(script).Keep? then 0 else 1)
  }

  lemma {:induction false} NoScriptIsCheaper<T>(script: seq<Edit<T>>, a: seq<T>, b: seq<T>)
    requires Apply(script, a) == Some(b)
    ensures Distance(a, b) <= Edits(script)
  {
    if script != [] {
      match Last(script) {
        case Insert(y) =>
          assert Init(b) == Apply(Init(script), a).value;
          NoScriptIsCheaper(Init(script), a, Init(b));
          StepBounds(a, b);
        case Delete =>
          NoScriptIsCheaper(Init(script), Init(a), b);
          StepBounds(a, b);
        case Keep =>
          assert Init(b) == Apply(Init(script), Init(a)).value;
          NoScriptIsCheaper(Init(script), Init(a), Init(b));
          StepBounds(a, b);
        case Replace(y) =>
          assert Init(b) == Apply(Init(script), Init(a)).value;
          NoScriptIsCheaper(Init(script), Init(a), Init(b));
          StepBounds(a, b);
      }
    }
  }

  lemma {:induction false} CheapestScript<T>(a: seq<T>, b: seq<T>) returns (script: seq<Edit<T>>)
    ensures Apply(script, a) == Some(b) && Edits(script) == Distance(a, b)
    decreases |a| + |b|
  {
    if a == [] && b == [] {
      script := [];
    } else if a != [] && (b == [] || Distance(a, b) == Distance(Init(a), b) + 1) {
      script := CheapestScript(Init(a), b);
      script := script + [Delete];
      assert Init(script) + [Last(script)] == script;
      DistanceToEmpty(a);
    } else if b != [] && (a == [] || Distance(a, b) == Distance(a, Init(b)) + 1) {
      var shorter := CheapestScript(a, Init(b));
      script := shorter + [Insert(Last(b))];
      assert Init(script) == shorter && Init(b) + [Last(b)] == b;
    } else {
      var shorter := CheapestScript(Init(a), Init(b));
      script := shorter + [if Last(a) == Last(b) then Keep else Replace(Last(b))];
      assert Init(script) == shorter && Init(b) + [Last(b)] == b;
    }
  }

  lemma DistanceToEmpty<T>(a: seq<T>)
    ensures Distance(a, []) == |a|
  {
  }

  /** Distance is the least number of inserts, deletes and replacements turning a into b. */
  lemma DistanceIsMinimal<T>(a: seq<T>, b: seq<T>)
    ensures exists script :: Apply(script, a) == Some(b) && Edits(script) == Distance(a, b)
    ensures forall script :: Apply(script, a) == Some(b) ==> Distance(a, b) <= Edits(script)
  {
    var best := CheapestScript(a, b);
    forall script | Apply(script, a) == Some(b) ensures Distance(a, b) <= Edits(script) {
      NoScriptIsCheaper(script, a, b);
    }
  }

  // ---- a metric ----

  /** One more symbol on either side costs at most one. */
  lemma StepBounds<T>(a: seq<T>, b: seq<T>)
    ensures a != [] ==> Distance(a, b) <= Distance(Init(a), b) + 1
    ensures b != [] ==> Distance(a, b) <= Distance(a, Init(b)) + 1
    ensures a != [] && b != [] ==> Distance(a, b) <= Distance(Init(a), Init(b)) + Cost(Last(a), Last(b))
  {
  }

  lemma {:induction false} Symmetric<T>(a: seq<T>, b: seq<T>)
    ensures Distance(a, b) == Distance(b, a)
    decreases |a| + |b|
  {
    if a != [] && b != [] {
      Symmetric(Init(a), b);
      Symmetric(a, Init(b));
      Symmetric(Init(a), Init(b));
    }
  }

  lemma {:induction false} Bounded<T>(a: seq<T>, b: seq<T>)
    ensures Distance(a, b) >= |a| - |b| && Distance(a, b) >= |b| - |a|
    ensures Distance(a, b) <= if |a| >= |b| then |a| else |b|
    decreases |a| + |b|
  {
    if a != [] && b != [] {
      Bounded(Init(a), b);
      Bounded(a, Init(b));
      Bounded(Init(a), Init(b));
    }
  }

  lemma {:induction false} ZeroOnlyOnEqual<T>(a: seq<T>, b: seq<T>)
    ensures Distance(a, b) == 0 <==> a == b
    decreases |a| + |b|
  {
    if a != [] && b != [] {
      ZeroOnlyOnEqual(Init(a), Init(b));
      assert a == Init(a) + [Last(a)] && b == Init(b) + [Last(b)];
      if a == b {
        StepBounds(a, b);
      }
    }
  }

  lemma {:induction false} Triangle<T>(a: seq<T>, b: seq<T>, c: seq<T>)
    ensures Distance(a, c) <= Distance(a, b) + Distance(b, c)
    decreases |a| + |b| + |c|
  {
    if a == [] || b == [] || c == [] {
      Bounded(a, b);
      Bounded(b, c);
      Bounded(a, c);
    } else {
      StepBounds(a, c);
      if Distance(a, b) == Distance(Init(a), b) + 1 {
        Triangle(Init(a), b, c);
      } else if Distance(b, c) == Distance(b, Init(c)) + 1 {
        Triangle(a, b, Init(c));
      } else if Distance(a, b) == Distance(a, Init(b)) + 1 {
        if Distance(b, c) == Distance(Init(b), c) + 1 {
          Triangle(a, Init(b), c);
        } else {
          Triangle(a, Init(b), Init(c));
        }
      } else if Distance(b, c) == Distance(Init(b), c) + 1 {
        Triangle(Init(a), Init(b), c);
      } else {
        Triangle(Init(a), Init(b), Init(c));
      }
    }
  }

  // ---- isSimilar ----

  predicate Includes<T(==)>(a: seq<T>, b: seq<T>) {
    exists i :: 0 <= i <= |a| && b <= a[i..]
  }

  function MaxLength<T>(a: seq<T>, b: seq<T>): nat {
    if |a| >= |b| then |a| else |b|
  }

  /** On normalized texts, as sequences of whatever units they compare by, the division taken exactly. */
  predicate SimilarNormalized<T(==)>(a: seq<T>, b: seq<T>) {
    if a == [] || b == [] then false
    else if a == b then true
    else if |a| >= 5 && |b| >= 5 && (Includes(a, b) || Includes(b, a)) then true
    else if MaxLength(a, b) < 8 then false
    else 1.0 - Distance(a, b) as real / MaxLength(a, b) as real >= 0.82
  }

  predicate IsSimilar<V, T(==)>(normalize: V -> seq<T>, left: V, right: V) {
    SimilarNormalized(normalize(left), normalize(right))
  }

  lemma IsSimilarSymmetric<V, T>(normalize: V -> seq<T>, left: V, right: V)
    ensures IsSimilar(normalize, left, right) == IsSimilar(normalize, right, left)
  {
    Symmetric(normalize(left), normalize(right));
  }

  /** b is a stretch of a. */
  ghost predicate Stretch<T(!new)>(a: seq<T>, b: seq<T>) {
    exists before: seq<T>, behind: seq<T> :: a == before + b + behind
  }

  lemma IncludesStretch<T(!new)>(a: seq<T>, b: seq<T>)
    ensures Includes(a, b) <==> Stretch(a, b)
  {
    if i :| 0 <= i <= |a| && b <= a[i..] {
      var behind := a[i..][|b|..];
      assert a[i..] == b + behind;
      assert a == a[..i] + b + behind;
    }
    if before: seq<T>, behind: seq<T> :| a == before + b + behind {
      assert a[|before|..] == b + behind;
      assert b <= a[|before|..];
    }
  }

  /**
   * Two texts are similar exactly when neither is empty and they are equal, or both have five symbols and one is a
   * stretch of the other, or the longer has eight and they differ by at most 18 edits per 100 of its symbols.
   */
  lemma SimilarExactlyWhen<V, T(!new)>(normalize: V -> seq<T>, left: V, right: V)
    ensures var a, b := normalize(left), normalize(right);
      var longer := if |a| >= |b| then |a| else |b|;
      IsSimilar(normalize, left, right) <==>
        && |a| > 0 && |b| > 0
        && (a == b
            || (|a| >= 5 && |b| >= 5 && (Stretch(a, b) || Stretch(b, a)))
            || (longer >= 8 && 100 * Distance(a, b) <= 18 * longer))
  {
    var a, b := normalize(left), normalize(right);
    IncludesStretch(a, b);
    IncludesStretch(b, a);
    if MaxLength(a, b) > 0 {
      ShareOfWhole(Distance(a, b), MaxLength(a, b));
    }
  }

  lemma ShareOfWhole(d: nat, m: nat)
    requires m > 0
    ensures 1.0 - d as real / m as real >= 0.82 <==> 100 * d <= 18 * m
  {
    var share, whole := d as real / m as real, m as real;
    assert share * whole == d as real;
    if share <= 0.18 {
      Scale(share, 0.18, whole);
    } else {
      ScaleUp(0.18, share, whole);
    }
  }

  lemma Scale(x: real, y: real, m: real)
    requires x <= y && m > 0.0
    ensures x * m <= y * m
  {
  }

  lemma ScaleUp(x: real, y: real, m: real)
    requires x < y && m > 0.0
    ensures x * m < y * m
  {
  }
}
