/**
 * The engine line of a listing, e.g. "1 598 cm3 • 116 cv", and the Python
 * `re.search` of the pattern
 *
 *   (?P<cylinder>\d{1,3}\s?\d{3})\s*cm3\s*•\s*(?P<horsepower>\d+)\s*cv
 *
 * (SVS/sv_base.py:114-125). The pattern is given declaratively by
 * `MatchesAt`; `ParseAt` is a deterministic recogniser proved to find exactly
 * the matches `MatchesAt` describes, and `Search` picks the leftmost one as
 * `re.search` does. At any start index at most one match exists, so the
 * backtracking order of the regex engine does not affect the groups.
 */
module Engine {
  import opened Wrappers
  import opened PyText

  /** The bullet between the displacement and the power, U+2022. */
  const Bullet: char := '\U{2022}'

  /** The two character classes of the pattern: `\d` and `\s`. */
  datatype CharClass = Digit | Space

  predicate In(cls: CharClass, c: char) {
    match cls
    case Digit => IsDigit(c)
    case Space => IsSpace(c)
  }

  /** Every character of `s[a..b]` is of class `cls`. */
  predicate Span(s: string, a: nat, b: nat, cls: CharClass) {
    a <= b <= |s| && forall k :: a <= k < b ==> In(cls, s[k])
  }

  /** The three literal words of the pattern. */
  datatype Word = Cm3 | BulletWord | Cv {
    function Length(): nat {
      match this
      case Cm3 => 3
      case BulletWord => 1
      case Cv => 2
    }
  }

  /** The word `w` occurs in `s` at index `a`. */
  predicate WordAt(s: string, a: nat, w: Word) {
    a + w.Length() <= |s| &&
    match w
    case Cm3 => s[a] == 'c' && s[a + 1] == 'm' && s[a + 2] == '3'
    case BulletWord => s[a] == Bullet
    case Cv => s[a] == 'c' && s[a + 1] == 'v'
  }

  /** No word of the pattern starts with whitespace or a digit. */
  lemma WordStart(s: string, a: nat, w: Word)
    requires WordAt(s, a, w)
    ensures !IsSpace(s[a]) && !IsDigit(s[a])
  {
  }

  /**
   * Where the pieces of `(?P<cylinder>\d{1,3}\s?\d{3})` end when the match
   * starts at `i`: the leading digits are `s[i..leadEnd]`, the optional
   * whitespace `s[leadEnd..sepEnd]` and the last three digits
   * `s[sepEnd..sepEnd + 3]`.
   */
  datatype Group = Group(leadEnd: nat, sepEnd: nat) {
    function End(): nat {
      sepEnd + 3
    }
  }

  /**
   * Where the pieces of `\s*cm3\s*•\s*(?P<horsepower>\d+)\s*cv` begin: `cm3`
   * at `unitAt`, the bullet at `bulletAt`, the horsepower digits in
   * `s[hpStart..hpEnd]` and `cv` at `cvAt`; whitespace fills the gaps.
   */
  datatype Tail = Tail(unitAt: nat, bulletAt: nat, power: Power) {
    function End(): nat {
      power.cvAt + 2
    }
  }

  /** Where the `horsepower` digits start and end, and where `cv` starts. */
  datatype Power = Power(hpStart: nat, hpEnd: nat, cvAt: nat)

  /** One match of the whole pattern. */
  datatype EngineParse = EngineParse(cylinder: Group, tail: Tail)

  /** `\d{1,3}\s?\d{3}` matches `s` from index `i` on, with its pieces ending where `g` says. */
  predicate GroupMatchesAt(s: string, i: nat, g: Group) {
    && i + 1 <= g.leadEnd <= i + 3 && Span(s, i, g.leadEnd, Digit)
    && g.leadEnd <= g.sepEnd <= g.leadEnd + 1 && Span(s, g.leadEnd, g.sepEnd, Space)
    && Span(s, g.sepEnd, g.End(), Digit)
  }

  /** `\s*cm3\s*•\s*(?P<horsepower>\d+)\s*cv` matches `s` from index `j` on, with its pieces where `t` says. */
  predicate TailMatchesAt(s: string, j: nat, t: Tail) {
    && Span(s, j, t.unitAt, Space) && WordAt(s, t.unitAt, Cm3)
    && Span(s, t.unitAt + 3, t.bulletAt, Space) && WordAt(s, t.bulletAt, BulletWord)
    && PowerMatchesAt(s, t.bulletAt + 1, t.power)
  }

  /** `\s*(?P<horsepower>\d+)\s*cv` matches `s` from index `b` on, with its pieces where `p` says. */
  predicate PowerMatchesAt(s: string, b: nat, p: Power) {
    && Span(s, b, p.hpStart, Space)
    && p.hpStart < p.hpEnd && Span(s, p.hpStart, p.hpEnd, Digit)
    && Span(s, p.hpEnd, p.cvAt, Space) && WordAt(s, p.cvAt, Cv)
  }

  /** The whole pattern matches `s` from index `i` on, its pieces back to back as `p` says. */
  predicate MatchesAt(s: string, i: nat, p: EngineParse) {
    GroupMatchesAt(s, i, p.cylinder) && TailMatchesAt(s, p.cylinder.End(), p.tail)
  }

  /** The length of the longest run of `cls`-characters of `s` starting at `i`. */
  function RunOf(s: string, i: nat, cls: CharClass): (n: nat)
    requires i <= |s|
    ensures i + n <= |s|
    decreases |s| - i
  {
    if i < |s| && In(cls, s[i]) then 1 + RunOf(s, i + 1, cls) else 0
  }

  /** `RunOf` counts a run of `cls`-characters that cannot be extended. */
  lemma {:induction false} RunSpan(s: string, i: nat, cls: CharClass)
    requires i <= |s|
    ensures Span(s, i, i + RunOf(s, i, cls), cls)
    ensures i + RunOf(s, i, cls) == |s| || !In(cls, s[i + RunOf(s, i, cls)])
    decreases |s| - i
  {
    if i < |s| && In(cls, s[i]) {
      RunSpan(s, i + 1, cls);
    }
  }

  /** A run of `cls`-characters that cannot be extended is the longest one. */
  lemma {:induction false} RunExact(s: string, i: nat, b: nat, cls: CharClass)
    requires Span(s, i, b, cls)
    requires b == |s| || !In(cls, s[b])
    ensures RunOf(s, i, cls) == b - i
    decreases b - i
  {
    if i < b {
      RunExact(s, i + 1, b, cls);
    }
  }

  /** A run of `cls`-characters bounds the longest one from below. */
  lemma {:induction false} RunAtLeast(s: string, i: nat, b: nat, cls: CharClass)
    requires Span(s, i, b, cls)
    ensures RunOf(s, i, cls) >= b - i
    decreases b - i
  {
    if i < b {
      RunAtLeast(s, i + 1, b, cls);
    }
  }

  /** `\s*w` from index `j`: where the word `w` starts. */
  function GapAt(s: string, j: nat, w: Word): (r: Option<nat>)
    requires j <= |s|
    ensures r.Some? ==> j <= r.value && WordAt(s, r.value, w)
  {
    var n := j + RunOf(s, j, Space);
    if WordAt(s, n, w) then Some(n) else None
  }

  /** What `GapAt` skips is whitespace. */
  lemma GapSound(s: string, j: nat, w: Word)
    requires j <= |s| && GapAt(s, j, w).Some?
    ensures Span(s, j, GapAt(s, j, w).value, Space)
  {
    RunSpan(s, j, Space);
  }

  /** Since no word starts with whitespace, `\s*w` matches in at most one way. */
  lemma GapComplete(s: string, j: nat, a: nat, w: Word)
    requires Span(s, j, a, Space) && WordAt(s, a, w)
    ensures GapAt(s, j, w) == Some(a)
  {
    WordStart(s, a, w);
    RunExact(s, j, a, Space);
  }

  /** `\s*(?P<horsepower>\d+)\s*cv` from index `b`. */
  function PowerAt(s: string, b: nat): (r: Option<Power>)
    requires b <= |s|
    ensures r.Some? ==> b <= r.value.hpStart < r.value.hpEnd <= r.value.cvAt && WordAt(s, r.value.cvAt, Cv)
  {
    var c := b + RunOf(s, b, Space);
    var d := c + RunOf(s, c, Digit);
    if d == c then None
    else
      match GapAt(s, d, Cv)
      case None => None
      case Some(e) => Some(Power(c, d, e))
  }

  /** What `PowerAt` finds is a match. */
  lemma PowerSound(s: string, b: nat)
    requires b <= |s| && PowerAt(s, b).Some?
    ensures PowerMatchesAt(s, b, PowerAt(s, b).value)
  {
    var c := b + RunOf(s, b, Space);
    RunSpan(s, b, Space);
    RunSpan(s, c, Digit);
    GapSound(s, c + RunOf(s, c, Digit), Cv);
  }

  /** Every match of `\s*(?P<horsepower>\d+)\s*cv` from `b` is the one `PowerAt` returns. */
  lemma PowerComplete(s: string, b: nat, p: Power)
    requires PowerMatchesAt(s, b, p)
    ensures PowerAt(s, b) == Some(p)
  {
    assert In(Digit, s[p.hpStart]);
    RunExact(s, b, p.hpStart, Space);
    assert p.hpEnd == |s| || !IsDigit(s[p.hpEnd]) by {
      if p.hpEnd < p.cvAt {
        SpaceIsNotDigit(s[p.hpEnd]);
      } else {
        WordStart(s, p.cvAt, Cv);
      }
    }
    RunExact(s, p.hpStart, p.hpEnd, Digit);
    GapComplete(s, p.hpEnd, p.cvAt, Cv);
  }

  /** The `cm3 … cv` part of the pattern, matched from index `j`. */
  function TailAt(s: string, j: nat): (r: Option<Tail>)
    requires j <= |s|
    ensures r.Some? ==> j <= r.value.unitAt && r.value.End() <= |s|
  {
    match GapAt(s, j, Cm3)
    case None => None
    case Some(a) =>
      match GapAt(s, a + 3, BulletWord)
      case None => None
      case Some(b) =>
        match PowerAt(s, b + 1)
        case None => None
        case Some(p) => Some(Tail(a, b, p))
  }

  /** What `TailAt` finds is a match. */
  lemma TailSound(s: string, j: nat)
    requires j <= |s| && TailAt(s, j).Some?
    ensures TailMatchesAt(s, j, TailAt(s, j).value)
  {
    var t := TailAt(s, j).value;
    GapSound(s, j, Cm3);
    GapSound(s, t.unitAt + 3, BulletWord);
    PowerSound(s, t.bulletAt + 1);
  }

  /** Every match of the tail of the pattern is the one `TailAt` returns. */
  lemma TailComplete(s: string, j: nat, t: Tail)
    requires TailMatchesAt(s, j, t)
    ensures TailAt(s, j) == Some(t)
  {
    GapComplete(s, j, t.unitAt, Cm3);
    GapComplete(s, t.unitAt + 3, t.bulletAt, BulletWord);
    PowerComplete(s, t.bulletAt + 1, t.power);
    TailSteps(s, j, t);
  }

  /** `TailAt` returns the tail whose three steps it finds. */
  lemma TailSteps(s: string, j: nat, t: Tail)
    requires j <= |s| && GapAt(s, j, Cm3) == Some(t.unitAt)
    requires GapAt(s, t.unitAt + 3, BulletWord) == Some(t.bulletAt)
    requires PowerAt(s, t.bulletAt + 1) == Some(t.power)
    ensures TailAt(s, j) == Some(t)
  {
  }

  /** The tail of the pattern never starts with a digit. */
  lemma TailStartsWithNoDigit(s: string, j: nat, t: Tail)
    requires TailMatchesAt(s, j, t)
    ensures j < |s| && !IsDigit(s[j])
  {
    if j < t.unitAt {
      SpaceIsNotDigit(s[j]);
    } else {
      WordStart(s, j, Cm3);
    }
  }

  /**
   * The `cylinder` group at `i`, among the ways it can match the one that can
   * be followed by a non-digit. With `n` digits from `i` on, that is `n`
   * digits, one whitespace and three digits when `n <= 3`, and `n - 3` digits
   * then three digits when `4 <= n <= 6`.
   */
  function GroupAt(s: string, i: nat): (r: Option<Group>)
    requires i <= |s|
    ensures r.Some? ==> i < r.value.leadEnd <= r.value.sepEnd && r.value.End() <= |s|
  {
    var n := RunOf(s, i, Digit);
    if 1 <= n <= 3 && i + n < |s| && IsSpace(s[i + n]) && RunOf(s, i + n + 1, Digit) >= 3 then
      Some(Group(i + n, i + n + 1))
    else if 4 <= n <= 6 then
      Some(Group(i + n - 3, i + n - 3))
    else None
  }

  /** What `GroupAt` finds is a match. */
  lemma GroupSound(s: string, i: nat)
    requires i <= |s| && GroupAt(s, i).Some?
    ensures GroupMatchesAt(s, i, GroupAt(s, i).value)
  {
    var g := GroupAt(s, i).value;
    RunSpan(s, i, Digit);
    if g.sepEnd == g.leadEnd + 1 {
      RunSpan(s, g.sepEnd, Digit);
      assert In(Space, s[g.leadEnd]);
    }
  }

  /** A match of the `cylinder` group that is followed by a non-digit is the one `GroupAt` returns. */
  lemma GroupComplete(s: string, i: nat, g: Group)
    requires GroupMatchesAt(s, i, g)
    requires g.End() < |s| && !IsDigit(s[g.End()])
    ensures GroupAt(s, i) == Some(g)
  {
    if g.sepEnd == g.leadEnd + 1 {
      SpaceIsNotDigit(s[g.leadEnd]);
      RunExact(s, i, g.leadEnd, Digit);
      RunAtLeast(s, g.sepEnd, g.End(), Digit);
    } else {
      RunExact(s, i, g.End(), Digit);
    }
  }

  /** The whole pattern, matched from index `i`. */
  function ParseAt(s: string, i: nat): (r: Option<EngineParse>)
    requires i <= |s|
  {
    match GroupAt(s, i)
    case None => None
    case Some(g) =>
      match TailAt(s, g.End())
      case None => None
      case Some(t) => Some(EngineParse(g, t))
  }

  /** What `ParseAt` finds is a match. */
  lemma ParseSound(s: string, i: nat)
    requires i <= |s| && ParseAt(s, i).Some?
    ensures MatchesAt(s, i, ParseAt(s, i).value)
  {
    GroupSound(s, i);
    TailSound(s, GroupAt(s, i).value.End());
  }

  /** Every match of the pattern at `i` is the one `ParseAt` returns. */
  lemma ParseComplete(s: string, i: nat, p: EngineParse)
    requires MatchesAt(s, i, p)
    ensures ParseAt(s, i) == Some(p)
  {
    TailStartsWithNoDigit(s, p.cylinder.End(), p.tail);
    GroupComplete(s, i, p.cylinder);
    TailComplete(s, p.cylinder.End(), p.tail);
  }

  /** At one start index the pattern matches in at most one way. */
  lemma MatchUnique(s: string, i: nat, p: EngineParse, q: EngineParse)
    requires MatchesAt(s, i, p) && MatchesAt(s, i, q)
    ensures p == q
  {
    ParseComplete(s, i, p);
    ParseComplete(s, i, q);
  }

  /** A match starts inside the line. */
  lemma MatchInside(s: string, j: nat, q: EngineParse)
    requires MatchesAt(s, j, q)
    ensures j < |s|
  {
  }

  /** A match of the pattern, and the index where it starts. */
  datatype Match = Match(start: nat, parse: EngineParse)

  /** What `ParseAt` finds at each start index `0..|s|` that `re.search` tries. */
  function Candidates(s: string): (r: seq<Option<EngineParse>>)
    ensures |r| == |s| + 1
    ensures forall i :: 0 <= i <= |s| ==> r[i] == ParseAt(s, i)
  {
    seq(|s| + 1, (i: int) requires 0 <= i <= |s| => ParseAt(s, i))
  }

  /** The first start index at or after `i` whose candidate is a match. */
  function FirstFrom(cands: seq<Option<EngineParse>>, i: nat): (r: Option<Match>)
    requires i <= |cands|
    ensures r.Some? ==> i <= r.value.start < |cands| && cands[r.value.start] == Some(r.value.parse)
    ensures r.Some? ==> forall k :: i <= k < r.value.start ==> cands[k].None?
    ensures r.None? ==> forall k :: i <= k < |cands| ==> cands[k].None?
    decreases |cands| - i
  {
    if i == |cands| then None
    else
      match cands[i]
      case Some(p) => Some(Match(i, p))
      case None => FirstFrom(cands, i + 1)
  }

  /** `re.search`: the match at the first start index where the pattern matches. */
  function Search(s: string): Option<Match> {
    FirstFrom(Candidates(s), 0)
  }

  /**
   * `re.search` returns the leftmost match of the pattern, and `None` exactly
   * when the pattern matches nowhere.
   */
  lemma SearchLeftmost(s: string)
    ensures Search(s).Some? ==>
      && MatchesAt(s, Search(s).value.start, Search(s).value.parse)
      && forall j: nat, q :: j < Search(s).value.start ==> !MatchesAt(s, j, q)
    ensures Search(s).None? <==> forall j: nat, q :: !MatchesAt(s, j, q)
  {
    var cands := Candidates(s);
    forall j: nat, q | MatchesAt(s, j, q)
      ensures j < |cands| && cands[j] == Some(q)
    {
      MatchInside(s, j, q);
      ParseComplete(s, j, q);
    }
    if Search(s).Some? {
      var m := Search(s).value;
      assert ParseAt(s, m.start) == Some(m.parse);
      ParseSound(s, m.start);
    }
  }

  /** The `cylinder` group of a match starting at `i`. */
  function CylinderText(s: string, i: nat, g: Group): string
    requires GroupMatchesAt(s, i, g)
  {
    s[i..g.End()]
  }

  /** The `horsepower` group of a match. */
  function PowerText(s: string, t: Tail): string
    requires t.power.hpStart <= t.power.hpEnd <= |s|
  {
    s[t.power.hpStart..t.power.hpEnd]
  }

  /**
   * The engine part of the listing's record: the exception branch stores ''
   * in both keys, no match stores neither, a match stores both groups.
   */
  datatype EngineOutcome = Raised | NoMatch | Found(cilinder: string, hp: string)

  /**
   * Lines 114-125: `line` is `car_title_section.p.string`, `None` when any
   * step of that lookup gives `None` (which makes the block raise).
   */
  function EngineField(line: Option<string>): (r: EngineOutcome)
    ensures r.Raised? <==> line.None?
    ensures r.Found? ==> ' ' !in r.cilinder && |r.hp| >= 1 && AllDigits(r.hp)
  {
    match line
    case None => Raised
    case Some(s) =>
      match Search(s)
      case None => NoMatch
      case Some(m) =>
        SearchLeftmost(s);
        var cylinder := CylinderText(s, m.start, m.parse.cylinder);
        RemoveCharGone(cylinder, ' ');
        Found(RemoveAll(cylinder, " "), PowerText(s, m.parse.tail))
  }

  /** The keys and values the engine block adds to the record. */
  function EngineEntries(o: EngineOutcome): (r: map<string, string>)
    ensures r.Keys <= {"cilinder", "hp"}
    ensures "cilinder" in r <==> "hp" in r
    ensures o.Raised? ==> r == map["cilinder" := "", "hp" := ""]
    ensures o.NoMatch? <==> r == map[]
    ensures o.Found? ==> r["cilinder"] == o.cilinder && r["hp"] == o.hp
  {
    match o
    case Raised => map["cilinder" := "", "hp" := ""]
    case NoMatch => map[]
    case Found(c, h) => map["cilinder" := c, "hp" := h]
  }

  /**
   * Removing ASCII spaces from the `cylinder` group drops its separator when
   * that separator is an ASCII space and changes nothing else.
   */
  lemma CylinderSpacesRemoved(s: string, i: nat, g: Group)
    requires GroupMatchesAt(s, i, g)
    ensures var sep := s[g.leadEnd..g.sepEnd];
      RemoveAll(CylinderText(s, i, g), " ") == s[i..g.leadEnd] + (if sep == " " then "" else sep) + s[g.sepEnd..g.End()]
  {
    var lead, sep, rest := s[i..g.leadEnd], s[g.leadEnd..g.sepEnd], s[g.sepEnd..g.End()];
    assert CylinderText(s, i, g) == lead + sep + rest;
    assert ' ' !in lead by {
      forall k | 0 <= k < |lead| ensures lead[k] != ' ' { assert In(Digit, s[i + k]); }
    }
    assert ' ' !in rest by {
      forall k | 0 <= k < |rest| ensures rest[k] != ' ' { assert In(Digit, s[g.sepEnd + k]); }
    }
    RemoveCharBetween(lead, sep, rest, ' ');
  }

  /**
   * Given the leftmost match of the pattern in the line, the record gets the
   * digits of the `cylinder` group with an ASCII-space separator removed
   * (any other whitespace separator, such as U+00A0, is kept) and the
   * `horsepower` group unchanged.
   */
  lemma EngineFieldGroups(s: string, i: nat, p: EngineParse)
    requires MatchesAt(s, i, p)
    requires forall j: nat, q :: j < i ==> !MatchesAt(s, j, q)
    ensures var g := p.cylinder;
      var sep := s[g.leadEnd..g.sepEnd];
      EngineField(Some(s)) == Found(s[i..g.leadEnd] + (if sep == " " then "" else sep) + s[g.sepEnd..g.End()],
                                    s[p.tail.power.hpStart..p.tail.power.hpEnd])
  {
    SearchLeftmost(s);
    var m := Search(s).value;
    assert m.start == i;
    MatchUnique(s, i, p, m.parse);
    CylinderSpacesRemoved(s, i, p.cylinder);
  }

  /** The record gets neither key exactly when the line is present and the pattern matches nowhere in it. */
  lemma EngineFieldNoMatch(s: string)
    ensures EngineField(Some(s)) == NoMatch <==> forall j: nat, q :: !MatchesAt(s, j, q)
  {
    SearchLeftmost(s);
  }
}
