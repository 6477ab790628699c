/**
 * Python's `str.replace(old, new)` on text, for a non-empty `old`: every
 * non-overlapping occurrence, found scanning left to right, is replaced.
 *
 * `ReplaceAll` is the character-by-character definition used by the rest of
 * the model. `ReplaceByFind` is an independent reference written the way
 * CPython's implementation works (find the next occurrence, copy the text in
 * front of it, copy the replacement, continue after the occurrence); the two
 * are proved equal, and the properties the template engine relies on (a key
 * that does not occur leaves the text alone, the length of the result, when
 * the text is unchanged) are proved from them.
 */
module Replace {

  /** `key` occurs in `s` starting at index `i`. */
  predicate OccursAt(s: string, key: string, i: int)
  {
    0 <= i && i + |key| <= |s| && s[i..i + |key|] == key
  }

  /** Python's `key in s`. */
  predicate Contains(s: string, key: string)
  {
    exists i | 0 <= i <= |s| - |key| :: OccursAt(s, key, i)
  }

  /** Result of searching for a key, as Python's `str.find` (-1 becomes NoMatch). */
  datatype Match = NoMatch | MatchAt(index: nat)

  /** The first occurrence of `key` in `s`, if any (Python's `s.find(key)`). */
  function Find(s: string, key: string): (m: Match)
    requires |key| > 0
    ensures m.MatchAt? ==> m.index + |key| <= |s|
    decreases |s|
  {
    if |s| < |key| then NoMatch
    else if s[..|key|] == key then MatchAt(0)
    else
      match Find(s[1..], key)
      case NoMatch => NoMatch
      case MatchAt(i) => MatchAt(i + 1)
  }

  /** `Find` returns the leftmost occurrence, and finds one whenever the key occurs. */
  lemma {:induction false} FindLeftmost(s: string, key: string)
    requires |key| > 0
    ensures Find(s, key).MatchAt? ==> OccursAt(s, key, Find(s, key).index)
    ensures Find(s, key).MatchAt? ==> forall j :: 0 <= j < Find(s, key).index ==> !OccursAt(s, key, j)
    ensures Find(s, key).NoMatch? <==> !Contains(s, key)
    decreases |s|
  {
    if |s| < |key| {
    } else if s[..|key|] == key {
      assert OccursAt(s, key, 0);
    } else {
      FindLeftmost(s[1..], key);
      ShiftOccurrence(s, key);
      assert !OccursAt(s, key, 0);
      match Find(s[1..], key)
      case NoMatch =>
        forall j | 1 <= j ensures !OccursAt(s, key, j) {
          assert !OccursAt(s[1..], key, j - 1);
        }
      case MatchAt(i) =>
        forall j | 1 <= j < i + 1 ensures !OccursAt(s, key, j) {
          assert !OccursAt(s[1..], key, j - 1);
        }
    }
  }

  /** Occurrences in `s[1..]` are the occurrences in `s` after its first index. */
  lemma {:induction false} ShiftOccurrence(s: string, key: string)
    requires |s| > 0
    ensures forall j :: 0 <= j ==> (OccursAt(s[1..], key, j) <==> OccursAt(s, key, j + 1))
  {
    forall j | 0 <= j
      ensures OccursAt(s[1..], key, j) <==> OccursAt(s, key, j + 1)
    {
      if 0 <= j && j + |key| <= |s| - 1 {
        assert s[1..][j..j + |key|] == s[j + 1..j + 1 + |key|];
      }
    }
  }

  /** Python's `s.replace(key, val)`: left-to-right, non-overlapping. */
  function ReplaceAll(s: string, key: string, val: string): string
    requires |key| > 0
    decreases |s|
  {
    if |s| < |key| then s
    else if s[..|key|] == key then val + ReplaceAll(s[|key|..], key, val)
    else [s[0]] + ReplaceAll(s[1..], key, val)
  }

  /** Reference definition: jump to the next occurrence found by `Find`. */
  function ReplaceByFind(s: string, key: string, val: string): string
    requires |key| > 0
    decreases |s|
  {
    match Find(s, key)
    case NoMatch => s
    case MatchAt(i) => s[..i] + val + ReplaceByFind(s[i + |key|..], key, val)
  }

  /** Number of occurrences `ReplaceAll` replaces (Python's `s.count(key)`). */
  function Count(s: string, key: string): nat
    requires |key| > 0
    decreases |s|
  {
    match Find(s, key)
    case NoMatch => 0
    case MatchAt(i) => 1 + Count(s[i + |key|..], key)
  }

  /** The scanning definition agrees with the find-and-jump reference on every input. */
  lemma {:induction false} ReplaceAllIsReplaceByFind(s: string, key: string, val: string)
    requires |key| > 0
    ensures ReplaceAll(s, key, val) == ReplaceByFind(s, key, val)
    decreases |s|
  {
    if |s| < |key| {
    } else if s[..|key|] == key {
      ReplaceAllIsReplaceByFind(s[|key|..], key, val);
    } else {
      ReplaceAllIsReplaceByFind(s[1..], key, val);
      SkipFirst(s, key, val);
    }
  }

  /** When no occurrence starts at index 0, the reference keeps the first character and moves on. */
  lemma {:induction false} SkipFirst(s: string, key: string, val: string)
    requires |key| > 0 && |s| >= |key| && s[..|key|] != key
    ensures ReplaceByFind(s, key, val) == [s[0]] + ReplaceByFind(s[1..], key, val)
  {
    if Find(s[1..], key).NoMatch? {
      SkipFirstNoMatch(s, key, val);
    } else {
      SkipFirstMatch(s, key, val, Find(s[1..], key).index);
    }
  }

  lemma {:induction false} SkipFirstNoMatch(s: string, key: string, val: string)
    requires |key| > 0 && |s| >= |key| && s[..|key|] != key
    requires Find(s[1..], key) == NoMatch
    ensures ReplaceByFind(s, key, val) == [s[0]] + ReplaceByFind(s[1..], key, val)
  {
    assert Find(s, key) == NoMatch;
    assert ReplaceByFind(s, key, val) == s;
    assert ReplaceByFind(s[1..], key, val) == s[1..];
    assert s == [s[0]] + s[1..];
  }

  lemma {:induction false} SkipFirstMatch(s: string, key: string, val: string, i: nat)
    requires |key| > 0 && |s| >= |key| && s[..|key|] != key
    requires Find(s[1..], key) == MatchAt(i)
    ensures ReplaceByFind(s, key, val) == [s[0]] + ReplaceByFind(s[1..], key, val)
  {
    FindAfterFirst(s, key, i);
    TailAfterMatch(s, i, |key|);
    var x := ReplaceByFind(s[i + 1 + |key|..], key, val);
    ReplaceByFindAt(s[1..], key, val, i);
    ReplaceByFindAt(s, key, val, i + 1);
    ConsPrefix(s, i, val, x);
  }

  lemma {:induction false} FindAfterFirst(s: string, key: string, i: nat)
    requires |key| > 0 && |s| >= |key| && s[..|key|] != key
    requires Find(s[1..], key) == MatchAt(i)
    ensures Find(s, key) == MatchAt(i + 1)
  {
  }

  lemma TailAfterMatch(s: string, i: nat, n: nat)
    requires i + 1 + n <= |s|
    ensures s[1..][i + n..] == s[i + 1 + n..]
  {
  }

  lemma ConsPrefix(s: string, i: nat, val: string, x: string)
    requires i < |s|
    ensures s[..i + 1] + val + x == [s[0]] + (s[1..][..i] + val + x)
  {
    assert s[..i + 1] == [s[0]] + s[1..][..i];
  }

  lemma {:induction false} ReplaceByFindAt(s: string, key: string, val: string, i: nat)
    requires |key| > 0 && Find(s, key) == MatchAt(i)
    ensures ReplaceByFind(s, key, val) == s[..i] + val + ReplaceByFind(s[i + |key|..], key, val)
  {
  }

  /** A key that does not occur leaves the text as it is (Python's `if key in text` guard is neutral). */
  lemma {:induction false} ReplaceAbsent(s: string, key: string, val: string)
    requires |key| > 0
    requires !Contains(s, key)
    ensures ReplaceAll(s, key, val) == s
  {
    FindLeftmost(s, key);
    ReplaceAllIsReplaceByFind(s, key, val);
  }

  /** Replacing a key by itself changes nothing. */
  lemma {:induction false} ReplaceWithItself(s: string, key: string)
    requires |key| > 0
    ensures ReplaceAll(s, key, key) == s
    decreases |s|
  {
    if |s| < |key| {
    } else if s[..|key|] == key {
      ReplaceWithItself(s[|key|..], key);
      assert s == s[..|key|] + s[|key|..];
    } else {
      ReplaceWithItself(s[1..], key);
      assert s == [s[0]] + s[1..];
    }
  }

  /** Each replaced occurrence turns |key| characters into |val| characters. */
  lemma {:induction false} ReplaceLength(s: string, key: string, val: string)
    requires |key| > 0
    ensures |ReplaceAll(s, key, val)| == |s| + Count(s, key) * (|val| - |key|)
    decreases |s|
  {
    ReplaceAllIsReplaceByFind(s, key, val);
    ReplaceByFindLength(s, key, val);
  }

  lemma {:induction false} ReplaceByFindLength(s: string, key: string, val: string)
    requires |key| > 0
    ensures |ReplaceByFind(s, key, val)| == |s| + Count(s, key) * (|val| - |key|)
    decreases |s|
  {
    match Find(s, key)
    case NoMatch =>
      assert ReplaceByFind(s, key, val) == s;
    case MatchAt(i) =>
      var rest := s[i + |key|..];
      ReplaceByFindLength(rest, key, val);
      var x := ReplaceByFind(rest, key, val);
      assert ReplaceByFind(s, key, val) == s[..i] + val + x;
      var c := Count(rest, key);
      assert Count(s, key) == 1 + c;
      assert |s| == i + |key| + |rest|;
      MultiplyOneMore(c, |val| - |key|);
  }

  /** Kept apart so that the nonlinear step stays out of the recursive proof. */
  lemma MultiplyOneMore(c: int, d: int)
    ensures (1 + c) * d == d + c * d
  {
  }

  /** Some occurrence gets replaced exactly when the key occurs at all. */
  lemma {:induction false} CountPositive(s: string, key: string)
    requires |key| > 0
    ensures Count(s, key) > 0 <==> Contains(s, key)
  {
    FindLeftmost(s, key);
  }

  /**
   * `s.replace(key, val) == s` holds exactly when the key does not occur or
   * the value is the key itself.
   */
  lemma {:induction false} ReplaceUnchangedIff(s: string, key: string, val: string)
    requires |key| > 0
    ensures ReplaceAll(s, key, val) == s <==> (!Contains(s, key) || val == key)
  {
    if !Contains(s, key) {
      ReplaceAbsent(s, key, val);
    } else if val == key {
      ReplaceWithItself(s, key);
    } else if |val| == |key| {
      SameLengthReplaceChanges(s, key, val);
    } else {
      ReplaceLength(s, key, val);
      CountPositive(s, key);
      NonZeroProduct(Count(s, key), |val| - |key|);
    }
  }

  /** A different value of the key's own length shows up where the first occurrence was. */
  lemma {:induction false} SameLengthReplaceChanges(s: string, key: string, val: string)
    requires |key| > 0 && |val| == |key| && val != key
    requires Contains(s, key)
    ensures ReplaceAll(s, key, val) != s
  {
    ReplaceAllIsReplaceByFind(s, key, val);
    FindLeftmost(s, key);
    var i := Find(s, key).index;
    var rest := ReplaceByFind(s[i + |key|..], key, val);
    ReplaceByFindAt(s, key, val, i);
    assert (s[..i] + val + rest)[i..i + |val|] == val;
    assert s[i..i + |key|] == key;
  }

  /** Kept apart so that the nonlinear step stays out of the case analysis. */
  lemma NonZeroProduct(c: int, d: int)
    requires c > 0 && d != 0
    ensures c * d != 0
  {
  }
}
