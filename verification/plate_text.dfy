/**
 * Plate-text normalisation and the plate grammar: the function clean_text and
 * the pattern [A-Z]{2}[0-9]{1,2}[A-Z]{0,2}[0-9]{3,4} it searches for.
 */
module PlateText {
  import opened Wrappers

  // ---------------------------------------------------------------------------
  // Characters
  // ---------------------------------------------------------------------------

  predicate IsLetter(c: char) { 'A' <= c <= 'Z' }
  predicate IsDigit(c: char) { '0' <= c <= '9' }

  /** The characters Python's str.isspace accepts, which str.strip() removes. */
  predicate IsSpace(c: char) {
    ('\U{9}' <= c <= '\U{D}') || ('\U{1C}' <= c <= '\U{20}') || c == '\U{85}' || c == '\U{A0}'
    || c == '\U{1680}' || ('\U{2000}' <= c <= '\U{200A}') || c == '\U{2028}' || c == '\U{2029}'
    || c == '\U{202F}' || c == '\U{205F}' || c == '\U{3000}'
  }

  /** str.upper() on one character, for the ASCII letters. */
  function UpperChar(c: char): (u: char)
    ensures IsSpace(u) <==> IsSpace(c)
    ensures u == ' ' <==> c == ' '
    ensures !('a' <= u <= 'z')
    ensures 'a' <= c <= 'z' ==> IsLetter(u) && u as int - 'A' as int == c as int - 'a' as int
    ensures !('a' <= c <= 'z') ==> u == c
  {
    if 'a' <= c <= 'z' then (c as int - 'a' as int + 'A' as int) as char else c
  }

  // ---------------------------------------------------------------------------
  // Normalisation: text.strip().upper().replace(" ", "")
  // ---------------------------------------------------------------------------

  function StripLeft(s: string): string {
    if s != [] && IsSpace(s[0]) then StripLeft(s[1..]) else s
  }

  function StripRight(s: string): string {
    if s != [] && IsSpace(s[|s| - 1]) then StripRight(s[..|s| - 1]) else s
  }

  function Strip(s: string): string { StripRight(StripLeft(s)) }

  function Upper(s: string): (r: string)
    ensures |r| == |s| && forall k :: 0 <= k < |s| ==> r[k] == UpperChar(s[k])
  {
    if s == [] then [] else [UpperChar(s[0])] + Upper(s[1..])
  }

  function RemoveSpaces(s: string): string {
    if s == [] then [] else (if s[0] == ' ' then [] else [s[0]]) + RemoveSpaces(s[1..])
  }

  /** The text clean_text searches: stripped, upper-cased, spaces removed. */
  function Normalize(text: string): string {
    RemoveSpaces(Upper(Strip(text)))
  }

  // ---------------------------------------------------------------------------
  // The plate grammar
  // ---------------------------------------------------------------------------

  /** Repetition counts chosen for [0-9]{1,2}, [A-Z]{0,2} and [0-9]{3,4}. */
  datatype Counts = Counts(digits: nat, letters: nat, tail: nat)

  predicate ValidCounts(c: Counts) {
    1 <= c.digits <= 2 && c.letters <= 2 && 3 <= c.tail <= 4
  }

  function Len(c: Counts): nat { 2 + c.digits + c.letters + c.tail }

  /** Position k of a match with counts c must hold a letter (else a digit). */
  predicate LetterSlot(c: Counts, k: int) {
    k < 2 || (2 + c.digits <= k < 2 + c.digits + c.letters)
  }

  predicate SlotOk(c: Counts, k: int, ch: char) {
    if LetterSlot(c, k) then IsLetter(ch) else IsDigit(ch)
  }

  /** Position k of a match with counts c starting at i is in s and holds the right kind of character. */
  predicate SlotFits(s: string, i: nat, c: Counts, k: nat) {
    i + k < |s| && SlotOk(c, k, s[i + k])
  }

  /** s[i..i + Len(c)] spells the pattern with repetition counts c. */
  predicate FitsAt(s: string, i: nat, c: Counts) {
    i + Len(c) <= |s| && forall k :: 0 <= k < Len(c) ==> SlotFits(s, i, c, k)
  }

  /** The whole of p matches the plate grammar. */
  ghost predicate IsPlate(p: string) {
    exists c {:trigger FitsAt(p, 0, c)} :: ValidCounts(c) && Len(c) == |p| && FitsAt(p, 0, c)
  }

  // ---------------------------------------------------------------------------
  // The regular-expression engine at one start index
  // ---------------------------------------------------------------------------

  /**
   * The order in which a backtracking engine tries the repetition counts:
   * [0-9]{1,2} prefers 2 then 1, [A-Z]{0,2} prefers 2, 1, 0 and
   * [0-9]{3,4} prefers 4 then 3, the earlier quantifier varying slowest.
   */
  const Attempts: seq<Counts> := [
    Counts(2, 2, 4), Counts(2, 2, 3), Counts(2, 1, 4), Counts(2, 1, 3), Counts(2, 0, 4), Counts(2, 0, 3),
    Counts(1, 2, 4), Counts(1, 2, 3), Counts(1, 1, 4), Counts(1, 1, 3), Counts(1, 0, 4), Counts(1, 0, 3)
  ]

  /** The position of valid counts c in Attempts. */
  function Rank(c: Counts): nat
    requires ValidCounts(c)
  {
    (2 - c.digits) * 6 + (2 - c.letters) * 2 + (4 - c.tail)
  }

  lemma AttemptIsRanked(j: nat)
    requires j < |Attempts|
    ensures ValidCounts(Attempts[j]) && Rank(Attempts[j]) == j
  {
  }

  lemma RankIndexesAttempts(c: Counts)
    requires ValidCounts(c)
    ensures Rank(c) < |Attempts| && Attempts[Rank(c)] == c
  {
  }

  /**
   * The index of the first attempt, from `from` on, that fits at i.
   * (The start index in the decreases clause only keeps the verifier from
   * unrolling the whole table whenever `from` is a literal.)
   */
  function FirstFit(s: string, i: nat, from: nat): (r: Option<nat>)
    requires from <= |Attempts|
    decreases |Attempts| - from, i
    ensures r.Some? ==> from <= r.value < |Attempts| && FitsAt(s, i, Attempts[r.value])
    ensures forall j {:trigger FitsAt(s, i, Attempts[j])} :: from <= j < |Attempts| && (r.None? || j < r.value) ==> !FitsAt(s, i, Attempts[j])
  {
    if from == |Attempts| then None
    else if FitsAt(s, i, Attempts[from]) then Some(from)
    else FirstFit(s, i, from + 1)
  }

  /** The length of the match the engine finds at start index i, if any. */
  function MatchAt(s: string, i: nat): (r: Option<nat>)
    ensures r.Some? ==> i + r.value <= |s|
  {
    match FirstFit(s, i, 0)
    case None => None
    case Some(j) => Some(Len(Attempts[j]))
  }

  /** The first start index from `from` on where the engine finds a match, with its length. */
  function FindMatch(s: string, from: nat): (r: Option<(nat, nat)>)
    requires from <= |s|
    decreases |s| - from
    ensures r.Some? ==> from <= r.value.0 && MatchAt(s, r.value.0) == Some(r.value.1)
  {
    match MatchAt(s, from)
    case Some(n) => Some((from, n))
    case None => if from == |s| then None else FindMatch(s, from + 1)
  }

  /** The scan finds no match at an index it passes over. */
  lemma {:induction false} NoMatchBefore(s: string, from: nat, k: nat)
    requires from <= k <= |s|
    requires FindMatch(s, from).None? || k < FindMatch(s, from).value.0
    ensures MatchAt(s, k).None?
    decreases k - from
  {
    if k > from {
      assert MatchAt(s, from).None?;
      var r := FindMatch(s, from + 1);
      assert FindMatch(s, from) == r;
      assert r.None? || k < r.value.0;
      NoMatchBefore(s, from + 1, k);
    }
  }

  /**
   * clean_text: the first element of re.findall over the normalised text,
   * i.e. the match found at the smallest start index, or None.
   */
  function CleanText(text: string): Option<string>
  {
    FirstPlate(Normalize(text))
  }

  /** re.findall(plate_pattern, s)[0] if there is a match, else None. */
  function FirstPlate(s: string): Option<string>
  {
    var m := FindMatch(s, 0);
    if m.None? then None else Some(s[m.value.0..m.value.0 + m.value.1])
  }

  // ---------------------------------------------------------------------------
  // What a match is
  // ---------------------------------------------------------------------------

  lemma FitsShift(s: string, i: nat, c: Counts)
    requires i + Len(c) <= |s|
    ensures FitsAt(s, i, c) <==> FitsAt(s[i..i + Len(c)], 0, c)
  {
    var p := s[i..i + Len(c)];
    forall k | 0 <= k < Len(c) ensures SlotFits(s, i, c, k) <==> SlotFits(p, 0, c, k) {
      assert p[k] == s[i + k];
    }
  }

  /** A plate has 6 to 10 characters, each an upper-case letter or a digit. */
  lemma PlateShape(p: string)
    requires IsPlate(p)
    ensures 6 <= |p| <= 10
    ensures forall k :: 0 <= k < |p| ==> IsLetter(p[k]) || IsDigit(p[k])
  {
    var c :| ValidCounts(c) && Len(c) == |p| && FitsAt(p, 0, c);
    forall k | 0 <= k < |p| ensures IsLetter(p[k]) || IsDigit(p[k]) {
      assert SlotFits(p, 0, c, k);
    }
  }

  /** Two fits at the same index with the same digit count have the same letter count. */
  lemma LettersDetermined(s: string, i: nat, a: Counts, c: Counts)
    requires ValidCounts(a) && ValidCounts(c) && FitsAt(s, i, a) && FitsAt(s, i, c)
    requires a.digits == c.digits
    ensures a.letters == c.letters
  {
    // the first position after the shorter letter run is a digit in one fit
    // and, were the runs of different length, a letter in the other
    var m := if a.letters < c.letters then a.letters else c.letters;
    var p := i + 2 + a.digits + m;
    assert SlotFits(s, i, a, p - i) && SlotFits(s, i, c, p - i);
  }

  /** The first fit in backtracking order is at least as long as any other fit. */
  lemma GreedyIsLongest(s: string, i: nat, a: Counts, c: Counts)
    requires ValidCounts(a) && ValidCounts(c) && FitsAt(s, i, a) && FitsAt(s, i, c)
    requires forall j {:trigger FitsAt(s, i, Attempts[j])} :: 0 <= j < Rank(a) ==> !FitsAt(s, i, Attempts[j])
    ensures Len(c) <= Len(a)
  {
    RankIndexesAttempts(c);
    assert SlotFits(s, i, a, 3) && SlotFits(s, i, c, 3);
    if c.digits == a.digits {
      LettersDetermined(s, i, a, c);
    }
  }

  /** Any fit at i makes the engine match at i, at least as long as the fit. */
  lemma FitImpliesMatch(s: string, i: nat, c: Counts)
    requires ValidCounts(c) && FitsAt(s, i, c)
    ensures MatchAt(s, i).Some? && Len(c) <= MatchAt(s, i).value
  {
    RankIndexesAttempts(c);
    var r := FirstFit(s, i, 0);
    assert r.Some?;
    AttemptIsRanked(r.value);
    GreedyIsLongest(s, i, Attempts[r.value], c);
  }

  /**
   * The engine's match at i is the longest prefix of s[i..] that is a plate,
   * and there is none exactly when no prefix of s[i..] is a plate.
   */
  lemma MatchAtIsLongestPlate(s: string, i: nat)
    ensures MatchAt(s, i).None? <==> forall j {:trigger IsPlate(s[i..j])} :: i <= j <= |s| ==> !IsPlate(s[i..j])
    ensures MatchAt(s, i).Some? ==>
      IsPlate(s[i..i + MatchAt(s, i).value]) &&
      forall j {:trigger IsPlate(s[i..j])} :: i <= j <= |s| && IsPlate(s[i..j]) ==> j - i <= MatchAt(s, i).value
  {
    forall j | i <= j <= |s| && IsPlate(s[i..j])
      ensures MatchAt(s, i).Some? && j - i <= MatchAt(s, i).value
    {
      var c :| ValidCounts(c) && Len(c) == j - i && FitsAt(s[i..j], 0, c);
      FitsShift(s, i, c);
      FitImpliesMatch(s, i, c);
    }
    var r := FirstFit(s, i, 0);
    if r.Some? {
      var a := Attempts[r.value];
      AttemptIsRanked(r.value);
      FitsShift(s, i, a);
      assert MatchAt(s, i) == Some(Len(a));
      var p := s[i..i + Len(a)];
      assert ValidCounts(a) && Len(a) == |p| && FitsAt(p, 0, a);
      assert s[i..i + MatchAt(s, i).value] == p;
      assert IsPlate(s[i..i + Len(a)]);
    }
  }

  /** s holds no substring that is a plate. */
  ghost predicate NoPlateIn(s: string) {
    forall i, j {:trigger IsPlate(s[i..j])} :: 0 <= i <= j <= |s| ==> !IsPlate(s[i..j])
  }

  /**
   * p is the leftmost-longest plate in s: it occurs at k, no plate starts
   * before k, and no longer plate starts at k.
   */
  ghost predicate LeftmostLongest(s: string, k: nat, p: string) {
    k + |p| <= |s| && s[k..k + |p|] == p && IsPlate(p)
    && (forall i, j {:trigger IsPlate(s[i..j])} :: 0 <= i < k && i <= j <= |s| ==> !IsPlate(s[i..j]))
    && (forall j {:trigger IsPlate(s[k..j])} :: k <= j <= |s| && IsPlate(s[k..j]) ==> j - k <= |p|)
  }

  /** A string has at most one leftmost-longest plate. */
  lemma LeftmostLongestUnique(s: string, k1: nat, p1: string, k2: nat, p2: string)
    requires LeftmostLongest(s, k1, p1) && LeftmostLongest(s, k2, p2)
    ensures k1 == k2 && p1 == p2
  {
    assert IsPlate(s[k1..k1 + |p1|]) && IsPlate(s[k2..k2 + |p2|]);
  }

  /** clean_text returns None exactly when the normalised text holds no plate. */
  lemma CleanTextNoneIff(text: string)
    ensures CleanText(text).None? <==> NoPlateIn(Normalize(text))
  {
    var s := Normalize(text);
    var r := FindMatch(s, 0);
    if r.None? {
      forall i, j | 0 <= i <= j <= |s| ensures !IsPlate(s[i..j]) {
        NoMatchBefore(s, 0, i);
        MatchAtIsLongestPlate(s, i);
      }
    } else {
      MatchAtIsLongestPlate(s, r.value.0);
    }
  }

  /** The engine's first match in s is the leftmost-longest plate of s. */
  lemma FirstPlateIsLeftmostLongest(s: string) returns (k: nat)
    requires FirstPlate(s).Some?
    ensures LeftmostLongest(s, k, FirstPlate(s).value)
  {
    var n;
    k, n := FindMatch(s, 0).value.0, FindMatch(s, 0).value.1;
    assert MatchAt(s, k) == Some(n);
    var p := s[k..k + n];
    assert FirstPlate(s) == Some(p);
    MatchAtIsLongestPlate(s, k);
    assert n == MatchAt(s, k).value;
    assert p == s[k..k + MatchAt(s, k).value];
    forall i, j | 0 <= i < k && i <= j <= |s| ensures !IsPlate(s[i..j]) {
      NoMatchBefore(s, 0, i);
      MatchAtIsLongestPlate(s, i);
    }
    assert s[k..k + |p|] == p;
  }

  /** A result of clean_text is the leftmost-longest plate of the normalised text. */
  lemma CleanTextIsLeftmostLongest(text: string) returns (k: nat)
    requires CleanText(text).Some?
    ensures LeftmostLongest(Normalize(text), k, CleanText(text).value)
  {
    k := FirstPlateIsLeftmostLongest(Normalize(text));
  }

  /** The leftmost-longest plate of the normalised text, when there is one, is what clean_text returns. */
  lemma LeftmostLongestIsCleanText(text: string, k: nat, p: string)
    requires LeftmostLongest(Normalize(text), k, p)
    ensures CleanText(text) == Some(p)
  {
    var s := Normalize(text);
    assert IsPlate(s[k..k + |p|]);
    CleanTextNoneIff(text);
    var k' := CleanTextIsLeftmostLongest(text);
    LeftmostLongestUnique(s, k, p, k', CleanText(text).value);
  }

  /** A result is a substring of the normalised text, 6 to 10 letters and digits, matching the grammar. */
  lemma CleanTextResultIsPlate(text: string)
    requires CleanText(text).Some?
    ensures IsPlate(CleanText(text).value)
    ensures 6 <= |CleanText(text).value| <= 10
    ensures forall k :: 0 <= k < |CleanText(text).value| ==>
      IsLetter(CleanText(text).value[k]) || IsDigit(CleanText(text).value[k])
  {
    var k := FirstPlateIsLeftmostLongest(Normalize(text));
    PlateShape(CleanText(text).value);
  }

  // ---------------------------------------------------------------------------
  // What strip() and replace(" ", "") leave
  // ---------------------------------------------------------------------------

  /** lstrip() keeps the suffix that starts at the first non-whitespace character. */
  lemma {:induction false} StripLeftSpec(s: string)
    ensures var r := StripLeft(s);
      |r| <= |s| && r == s[|s| - |r|..] && (r == [] || !IsSpace(r[0]))
      && forall k :: 0 <= k < |s| - |r| ==> IsSpace(s[k])
  {
    if s != [] && IsSpace(s[0]) {
      StripLeftSpec(s[1..]);
      var r := StripLeft(s);
      forall k | 0 <= k < |s| - |r| ensures IsSpace(s[k]) {
        if k > 0 {
          assert s[k] == s[1..][k - 1];
        }
      }
    }
  }

  /** rstrip() keeps the prefix that ends at the last non-whitespace character. */
  lemma {:induction false} StripRightSpec(s: string)
    ensures var r := StripRight(s);
      |r| <= |s| && r == s[..|r|] && (r == [] || !IsSpace(r[|r| - 1]))
      && forall k :: |r| <= k < |s| ==> IsSpace(s[k])
  {
    if s != [] && IsSpace(s[|s| - 1]) {
      StripRightSpec(s[..|s| - 1]);
      var r := StripRight(s);
      forall k | |r| <= k < |s| ensures IsSpace(s[k]) {
        if k < |s| - 1 {
          assert s[k] == s[..|s| - 1][k];
        }
      }
    }
  }

  /**
   * Removing spaces leaves no space, keeps every other character as often as
   * it occurred, and leaves a text without spaces unchanged.
   */
  lemma {:induction false} RemoveSpacesSpec(s: string)
    ensures ' ' !in RemoveSpaces(s)
    ensures forall c :: c != ' ' ==> multiset(RemoveSpaces(s))[c] == multiset(s)[c]
    ensures ' ' !in s ==> RemoveSpaces(s) == s
  {
    if s != [] {
      RemoveSpacesSpec(s[1..]);
      assert s == [s[0]] + s[1..];
      assert multiset(s) == multiset([s[0]]) + multiset(s[1..]);
    }
  }

  /** The normalised text holds no space and no lower-case ASCII letter. */
  lemma NormalizeShape(text: string)
    ensures forall k :: 0 <= k < |Normalize(text)| ==> Normalize(text)[k] != ' ' && !('a' <= Normalize(text)[k] <= 'z')
  {
    var u := Upper(Strip(text));
    var n := Normalize(text);
    RemoveSpacesSpec(u);
    forall k | 0 <= k < |n| ensures n[k] != ' ' && !('a' <= n[k] <= 'z') {
      assert n[k] in multiset(n);
      assert n[k] in multiset(u);
      var j :| 0 <= j < |u| && u[j] == n[k];
    }
  }

  // ---------------------------------------------------------------------------
  // Normalisation: case and spaces do not matter
  // ---------------------------------------------------------------------------

  lemma {:induction false} UpperConcat(a: string, b: string)
    ensures Upper(a + b) == Upper(a) + Upper(b)
  {
    if a != [] {
      assert (a + b)[1..] == a[1..] + b;
      UpperConcat(a[1..], b);
    } else {
      assert a + b == b;
    }
  }

  lemma {:induction false} RemoveSpacesConcat(a: string, b: string)
    ensures RemoveSpaces(a + b) == RemoveSpaces(a) + RemoveSpaces(b)
  {
    if a != [] {
      assert (a + b)[1..] == a[1..] + b;
      RemoveSpacesConcat(a[1..], b);
    } else {
      assert a + b == b;
    }
  }

  lemma {:induction false} UpperStripLeft(s: string)
    ensures Upper(StripLeft(s)) == StripLeft(Upper(s))
  {
    if s != [] && IsSpace(s[0]) {
      UpperStripLeft(s[1..]);
      assert Upper(s)[1..] == Upper(s[1..]);
    }
  }

  lemma {:induction false} UpperStripRight(s: string)
    ensures Upper(StripRight(s)) == StripRight(Upper(s))
  {
    if s != [] {
      var init, last := s[..|s| - 1], s[|s| - 1];
      assert s == init + [last];
      UpperConcat(init, [last]);
      assert Upper(s)[..|s| - 1] == Upper(init);
      if IsSpace(last) {
        UpperStripRight(init);
      }
    }
  }

  lemma {:induction false} RemoveSpacesStripLeft(s: string)
    ensures RemoveSpaces(StripLeft(s)) == StripLeft(RemoveSpaces(s))
  {
    if s != [] && s[0] != ' ' {
      var rest := RemoveSpaces(s[1..]);
      assert RemoveSpaces(s) == [s[0]] + rest;
      if IsSpace(s[0]) {
        RemoveSpacesStripLeft(s[1..]);
        assert ([s[0]] + rest)[1..] == rest;
      }
    } else if s != [] {
      assert [] + RemoveSpaces(s[1..]) == RemoveSpaces(s[1..]);
      RemoveSpacesStripLeft(s[1..]);
    }
  }

  lemma {:induction false} RemoveSpacesStripRight(s: string)
    ensures RemoveSpaces(StripRight(s)) == StripRight(RemoveSpaces(s))
  {
    if s != [] {
      var init, last := s[..|s| - 1], s[|s| - 1];
      assert s == init + [last];
      RemoveSpacesConcat(init, [last]);
      assert RemoveSpaces([last]) == if last == ' ' then [] else [last];
      if IsSpace(last) {
        RemoveSpacesStripRight(init);
        if last != ' ' {
          assert (RemoveSpaces(init) + [last])[..|RemoveSpaces(init) + [last]| - 1] == RemoveSpaces(init);
        } else {
          assert RemoveSpaces(init) + [] == RemoveSpaces(init);
        }
      }
    }
  }

  lemma {:induction false} UpperRemoveSpaces(s: string)
    ensures Upper(RemoveSpaces(s)) == RemoveSpaces(Upper(s))
  {
    if s != [] {
      UpperRemoveSpaces(s[1..]);
      UpperConcat(if s[0] == ' ' then [] else [s[0]], RemoveSpaces(s[1..]));
    }
  }

  /** Normalising is the same as removing spaces, upper-casing, then stripping. */
  lemma {:induction false} NormalizeReordered(text: string)
    ensures Normalize(text) == Strip(Upper(RemoveSpaces(text)))
  {
    UpperStripLeft(text);
    UpperStripRight(StripLeft(text));
    RemoveSpacesStripRight(StripLeft(Upper(text)));
    RemoveSpacesStripLeft(Upper(text));
    UpperRemoveSpaces(text);
  }

  /**
   * clean_text depends only on the text once spaces are dropped and letters
   * upper-cased: neither case nor spaces affect acceptance or the result.
   */
  lemma {:induction false} CleanTextIgnoresCaseAndSpaces(t1: string, t2: string)
    requires Upper(RemoveSpaces(t1)) == Upper(RemoveSpaces(t2))
    ensures CleanText(t1) == CleanText(t2)
  {
    NormalizeReordered(t1);
    NormalizeReordered(t2);
    assert Normalize(t1) == Normalize(t2);
  }

  /** In particular, a space inserted anywhere leaves the result unchanged. */
  lemma CleanTextIgnoresInsertedSpace(a: string, b: string)
    ensures CleanText(a + " " + b) == CleanText(a + b)
  {
    RemoveSpacesConcat(a + " ", b);
    RemoveSpacesConcat(a, " ");
    RemoveSpacesConcat(a, b);
    assert RemoveSpaces(" ") == [];
    assert RemoveSpaces(a) + [] == RemoveSpaces(a);
    CleanTextIgnoresCaseAndSpaces(a + " " + b, a + b);
  }

  lemma {:induction false} UpperKeepsLettersAndDigits(s: string)
    requires forall k :: 0 <= k < |s| ==> IsLetter(s[k]) || IsDigit(s[k])
    ensures Upper(s) == s && RemoveSpaces(s) == s
  {
    if s != [] {
      UpperKeepsLettersAndDigits(s[1..]);
    }
  }

  /** Normalising a plate leaves it unchanged. */
  lemma NormalizePlate(p: string)
    requires IsPlate(p)
    ensures Normalize(p) == p
  {
    PlateShape(p);
    UpperKeepsLettersAndDigits(p);
    assert StripLeft(p) == p;
    assert StripRight(p) == p;
  }

  /** The engine matches a whole plate at its first index. */
  lemma {:induction false} FindMatchOfPlate(p: string)
    requires IsPlate(p)
    ensures FindMatch(p, 0) == Some((0, |p|))
  {
    var c :| ValidCounts(c) && Len(c) == |p| && FitsAt(p, 0, c);
    FitImpliesMatch(p, 0, c);
    assert MatchAt(p, 0) == Some(|p|);
  }

  /** A text that already is a plate is accepted unchanged. */
  lemma PlateIsAccepted(p: string)
    requires IsPlate(p)
    ensures CleanText(p) == Some(p)
  {
    NormalizePlate(p);
    FindMatchOfPlate(p);
    assert p[0..|p|] == p;
  }

  /**
   * A text that, with spaces removed and letters upper-cased, spells a plate
   * yields exactly that plate.
   */
  lemma {:induction false} SpacedPlateIsAccepted(text: string, p: string)
    requires IsPlate(p)
    requires Upper(RemoveSpaces(text)) == p
    ensures CleanText(text) == Some(p)
  {
    PlateIsAccepted(p);
    PlateShape(p);
    UpperKeepsLettersAndDigits(p);
    CleanTextIgnoresCaseAndSpaces(text, p);
  }

  /** Upper is determined by its value at each position. */
  lemma UpperPointwise(s: string, t: string)
    requires |s| == |t| && forall k :: 0 <= k < |s| ==> UpperChar(s[k]) == t[k]
    ensures Upper(s) == t
  {
  }

  lemma ExampleIsPlate()
    ensures IsPlate("MH12AB1234")
  {
    var p := "MH12AB1234";
    assert FitsAt(p, 0, Counts(2, 2, 4)) by {
      forall k | 0 <= k < 10 ensures SlotFits(p, 0, Counts(2, 2, 4), k) {
      }
    }
  }

  lemma ExampleUpper()
    ensures Upper("mh12ab1234") == "MH12AB1234"
  {
    var u, p := "mh12ab1234", "MH12AB1234";
    forall k | 0 <= k < |u| ensures UpperChar(u[k]) == p[k] {
    }
    UpperPointwise(u, p);
  }

  /** Removing spaces after appending a space and a group without spaces appends the group. */
  lemma {:induction false} RemoveSpacesJoin(x: string, y: string)
    requires ' ' !in y
    ensures RemoveSpaces(x + " " + y) == RemoveSpaces(x) + y
  {
    assert RemoveSpaces(" ") == [];
    RemoveSpacesSpec(y);
    RemoveSpacesConcat(x, " ");
    RemoveSpacesConcat(x + " ", y);
  }

  /** Removing spaces from a text spaced out as " a b c d " joins the groups. */
  lemma {:induction false} RemoveSpacesSpaced(a: string, b: string, c: string, d: string)
    requires ' ' !in a && ' ' !in b && ' ' !in c && ' ' !in d
    ensures RemoveSpaces(" " + a + " " + b + " " + c + " " + d + " ") == a + b + c + d
  {
    var x1 := [] + " " + a;
    RemoveSpacesJoin([], a);
    var x2 := x1 + " " + b;
    RemoveSpacesJoin(x1, b);
    var x3 := x2 + " " + c;
    RemoveSpacesJoin(x2, c);
    var x4 := x3 + " " + d;
    RemoveSpacesJoin(x3, d);
    RemoveSpacesJoin(x4, []);
    assert x4 + " " + [] == " " + a + " " + b + " " + c + " " + d + " ";
    assert RemoveSpaces([]) + a + b + c + d + [] == a + b + c + d;
  }

  lemma ExampleRemoveSpaces()
    ensures RemoveSpaces(" mh 12 ab 1234 ") == "mh12ab1234"
  {
    RemoveSpacesSpaced("mh", "12", "ab", "1234");
    assert " " + "mh" + " " + "12" + " " + "ab" + " " + "1234" + " " == " mh 12 ab 1234 ";
    assert "mh" + "12" + "ab" + "1234" == "mh12ab1234";
  }

  /** A spaced, lower-case reading of a plate yields the plate in capitals. */
  lemma SpacedLowerCaseExample()
    ensures CleanText(" mh 12 ab 1234 ") == Some("MH12AB1234")
  {
    ExampleIsPlate();
    ExampleUpper();
    ExampleRemoveSpaces();
    SpacedPlateIsAccepted(" mh 12 ab 1234 ", "MH12AB1234");
  }
}
