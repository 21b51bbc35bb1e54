/**
  * `datetime.strptime` and `date.strftime("%d/%m/%Y")` for the directives the
  * validators use.
  *
  * `strptime` compiles its format into a regular expression: every directive
  * becomes a group with fixed alternatives (tried in order), every run of
  * whitespace in the format becomes `\s+`, any other character matches
  * itself. The expression is matched at the start of the text with ordinary
  * backtracking; the first match found must then have consumed the whole
  * text ("unconverted data remains" otherwise), and the captured fields must
  * form a valid date. `MatchFrom` below is that backtracking match, written
  * out for this family of expressions.
  */
module TimeFormat {
  import opened Text
  import opened Civil

  /** The directives `%d %m %Y %H %I %M %p`. */
  datatype Directive = Day | Month | Year | Hour24 | Hour12 | Minute | AmPm

  datatype Item = Field(dir: Directive) | Lit(c: char) | Spaces

  /** One position of a directive's alternative: a character, a range, or a letter matched ignoring case. */
  datatype CharClass = One(c: char) | Span(lo: char, hi: char) | Caseless(c: char)

  predicate ClassMatches(k: CharClass, c: char) {
    match k
    case One(x) => c == x
    case Span(lo, hi) => lo <= c <= hi
    case Caseless(x) => c == x || c == ToUpper(x)
  }

  /**
    * The alternatives of each directive's group, in the order the regular
    * expression tries them (`%p` in the C locale: `am|pm`, ignoring case).
    */
  function Alternatives(d: Directive): seq<seq<CharClass>> {
    var digit := Span('0', '9');
    var nonZero := Span('1', '9');
    match d
    case Day => [[One('3'), Span('0', '1')], [Span('1', '2'), digit], [One('0'), nonZero], [nonZero], [One(' '), nonZero]]
    case Month => [[One('1'), Span('0', '2')], [One('0'), nonZero], [nonZero]]
    case Year => [[digit, digit, digit, digit]]
    case Hour24 => [[One('2'), Span('0', '3')], [Span('0', '1'), digit], [digit]]
    case Hour12 => [[One('1'), Span('0', '2')], [One('0'), nonZero], [nonZero]]
    case Minute => [[Span('0', '5'), digit], [digit]]
    case AmPm => [[Caseless('a'), Caseless('m')], [Caseless('p'), Caseless('m')]]
  }

  predicate AltMatchesAt(alt: seq<CharClass>, s: string, pos: nat) {
    pos + |alt| <= |s| && forall i :: 0 <= i < |alt| ==> ClassMatches(alt[i], s[pos + i])
  }

  /** `int()` of a captured group: its digits, read in base 10 (a leading space is skipped). */
  function NumberValue(t: string): nat {
    if t == [] then 0
    else if IsDigit(t[|t| - 1]) then NumberValue(t[..|t| - 1]) * 10 + DigitValue(t[|t| - 1])
    else NumberValue(t[..|t| - 1])
  }

  /** A way for a group to match at a position: how many characters it takes and the value it captures. */
  datatype Candidate = Candidate(len: nat, value: int)

  datatype Capture = Capture(dir: Directive, value: int)

  /** The successful match of a whole expression: where it ended and what it captured. */
  datatype Found = Found(end: nat, captures: seq<Capture>)

  /**
    * The alternatives in `alts` that match at `pos`, in order. `k` is the
    * index of `alts[0]` among all the directive's alternatives; for `%p` the
    * captured value is that index (0 for am, 1 for pm).
    */
  function CandidatesFrom(d: Directive, alts: seq<seq<CharClass>>, k: nat, s: string, pos: nat): (r: seq<Candidate>)
    ensures forall i :: 0 <= i < |r| ==> pos + r[i].len <= |s|
  {
    if alts == [] then []
    else
      var here :=
        if AltMatchesAt(alts[0], s, pos) then
          [Candidate(|alts[0]|, if d == AmPm then k else NumberValue(s[pos..pos + |alts[0]|]))]
        else [];
      here + CandidatesFrom(d, alts[1..], k + 1, s, pos)
  }

  function Candidates(d: Directive, s: string, pos: nat): (r: seq<Candidate>)
    ensures forall i :: 0 <= i < |r| ==> pos + r[i].len <= |s|
  {
    CandidatesFrom(d, Alternatives(d), 0, s, pos)
  }

  /** The number of whitespace characters starting at `pos`. */
  function WhitespaceRun(s: string, pos: nat): (n: nat)
    requires pos <= |s|
    ensures pos + n <= |s|
    ensures forall i :: pos <= i < pos + n ==> IsWhitespace(s[i])
    ensures pos + n == |s| || !IsWhitespace(s[pos + n])
    decreases |s| - pos
  {
    if pos < |s| && IsWhitespace(s[pos]) then 1 + WhitespaceRun(s, pos + 1) else 0
  }

  /** The first match of `items` at `pos`, in backtracking order. */
  function MatchFrom(items: seq<Item>, s: string, pos: nat): (r: Option<Found>)
    requires pos <= |s|
    ensures r.Some? ==> pos <= r.value.end <= |s|
    decreases |items|, 1, 0
  {
    if items == [] then Some(Found(pos, []))
    else match items[0]
      case Lit(c) => if pos < |s| && s[pos] == c then MatchFrom(items[1..], s, pos + 1) else None
      case Field(d) => TryCandidates(items, s, pos, Candidates(d, s, pos))
      case Spaces => TrySpaces(items, s, pos, WhitespaceRun(s, pos))
  }

  /** A group: try its candidates in order, each followed by the rest of the expression. */
  function TryCandidates(items: seq<Item>, s: string, pos: nat, cands: seq<Candidate>): (r: Option<Found>)
    requires items != [] && items[0].Field? && pos <= |s|
    requires forall i :: 0 <= i < |cands| ==> pos + cands[i].len <= |s|
    ensures r.Some? ==> pos <= r.value.end <= |s|
    decreases |items|, 0, |cands|
  {
    if cands == [] then None
    else match MatchFrom(items[1..], s, pos + cands[0].len)
      case Some(f) => Some(Found(f.end, [Capture(items[0].dir, cands[0].value)] + f.captures))
      case None => TryCandidates(items, s, pos, cands[1..])
  }

  /** `\s+`, greedy: try the longest run of whitespace first, then shorter ones, down to one character. */
  function TrySpaces(items: seq<Item>, s: string, pos: nat, k: nat): (r: Option<Found>)
    requires items != [] && pos + k <= |s|
    ensures r.Some? ==> pos <= r.value.end <= |s|
    decreases |items|, 0, k
  {
    if k == 0 then None
    else match MatchFrom(items[1..], s, pos + k)
      case Some(f) => Some(f)
      case None => TrySpaces(items, s, pos, k - 1)
  }

  function Lookup(cs: seq<Capture>, d: Directive): Option<int> {
    if cs == [] then None
    else if cs[0].dir == d then Some(cs[0].value)
    else Lookup(cs[1..], d)
  }

  function LookupOr(cs: seq<Capture>, d: Directive, default: int): int {
    match Lookup(cs, d)
    case Some(v) => v
    case None => default
  }

  /**
    * The hour `strptime` derives: `%H` as it is; `%I` with `%p`, where
    * 12 am is hour 0, and pm adds 12 except to 12 itself.
    */
  function HourOf(cs: seq<Capture>): int {
    match Lookup(cs, Hour24)
    case Some(h) => h
    case None =>
      match Lookup(cs, Hour12)
      case None => 0
      case Some(i) =>
        if LookupOr(cs, AmPm, 0) == 1 then (if i == 12 then 12 else i + 12)
        else (if i == 12 then 0 else i)
  }

  /** The `datetime` built from the captured fields (missing ones default to 1900-01-01 00:00). */
  function Assemble(cs: seq<Capture>): Moment {
    Moment(Date(LookupOr(cs, Year, 1900), LookupOr(cs, Month, 1), LookupOr(cs, Day, 1)), HourOf(cs), LookupOr(cs, Minute, 0), 0, 0)
  }

  /** `datetime.strptime(s, fmt)`; `None` where it raises `ValueError`. */
  function Strptime(fmt: seq<Item>, s: string): (r: Option<Moment>)
    ensures r.Some? ==> IsValidDate(r.value.date) && r.value.second == 0 && r.value.micro == 0
    ensures r.Some? ==> MatchFrom(fmt, s, 0).Some? && MatchFrom(fmt, s, 0).value.end == |s|
  {
    match MatchFrom(fmt, s, 0)
    case None => None
    case Some(f) =>
      if f.end != |s| then None
      else
        var m := Assemble(f.captures);
        if IsValidDate(m.date) then Some(m) else None
  }

  // ---------------------------------------------------------------------
  // The formats the validators try

  /** `%d/%m/%Y` */
  const DmySlash: seq<Item> := [Field(Day), Lit('/'), Field(Month), Lit('/'), Field(Year)]
  /** `%d-%m-%Y` */
  const DmyDash: seq<Item> := [Field(Day), Lit('-'), Field(Month), Lit('-'), Field(Year)]
  /** `%d.%m.%Y` */
  const DmyDot: seq<Item> := [Field(Day), Lit('.'), Field(Month), Lit('.'), Field(Year)]
  /** `%Y-%m-%d` */
  const YmdDash: seq<Item> := [Field(Year), Lit('-'), Field(Month), Lit('-'), Field(Day)]
  /** `%m/%d/%Y` */
  const MdySlash: seq<Item> := [Field(Month), Lit('/'), Field(Day), Lit('/'), Field(Year)]

  /** `%d/%m/%Y %H:%M` */
  const DmySlashTime: seq<Item> := DmySlash + [Spaces, Field(Hour24), Lit(':'), Field(Minute)]
  /** `%d-%m-%Y %H:%M` */
  const DmyDashTime: seq<Item> := DmyDash + [Spaces, Field(Hour24), Lit(':'), Field(Minute)]
  /** `%Y-%m-%d %H:%M` */
  const YmdDashTime: seq<Item> := YmdDash + [Spaces, Field(Hour24), Lit(':'), Field(Minute)]
  /** `%d/%m/%Y %I:%M %p` */
  const DmySlashClock: seq<Item> := DmySlash + [Spaces, Field(Hour12), Lit(':'), Field(Minute), Spaces, Field(AmPm)]

  // ---------------------------------------------------------------------
  // strftime("%d/%m/%Y")

  function Pad2(n: nat): (r: string)
    requires n < 100
    ensures |r| == 2 && All(r, IsDigit)
  {
    [DigitChar(n / 10), DigitChar(n % 10)]
  }

  function Pad4(n: nat): (r: string)
    requires n < 10000
    ensures |r| == 4 && All(r, IsDigit)
  {
    Pad2(n / 100) + Pad2(n % 100)
  }

  /** `date.strftime("%d/%m/%Y")`: day, month and year zero-padded to 2, 2 and 4 digits. */
  function FormatDmy(d: Date): (r: string)
    requires IsValidDate(d)
    ensures |r| == 10 && r[2] == '/' && r[5] == '/'
    ensures IsDigit(r[0]) && IsDigit(r[9])
  {
    Pad2(d.day) + "/" + Pad2(d.month) + "/" + Pad4(d.year)
  }

  // ---------------------------------------------------------------------
  // strptime(strftime(d)) == d

  lemma Pad2Value(n: nat)
    requires n < 100
    ensures NumberValue(Pad2(n)) == n
  {
    var t := Pad2(n);
    assert t[..1] == [t[0]];
    assert NumberValue([t[0]]) == DigitValue(t[0]) by {
      assert [t[0]][..0] == [];
    }
  }

  lemma Pad4Value(n: nat)
    requires n < 10000
    ensures NumberValue(Pad4(n)) == n
  {
    var t := Pad4(n);
    var hi, lo := Pad2(n / 100), Pad2(n % 100);
    Pad2Value(n / 100);
    assert t[..3] == hi + [lo[0]];
    assert (hi + [lo[0]])[..2] == hi;
    assert t[..3][..2] == hi;
  }

  /** The first candidate of a group is its first alternative that matches. */
  lemma {:induction false} FirstCandidate(d: Directive, alts: seq<seq<CharClass>>, k: nat, s: string, pos: nat, j: nat)
    requires j < |alts| && AltMatchesAt(alts[j], s, pos)
    requires forall i :: 0 <= i < j ==> !AltMatchesAt(alts[i], s, pos)
    ensures |CandidatesFrom(d, alts, k, s, pos)| > 0
    ensures CandidatesFrom(d, alts, k, s, pos)[0]
         == Candidate(|alts[j]|, if d == AmPm then k + j else NumberValue(s[pos..pos + |alts[j]|]))
  {
    if j > 0 {
      assert !AltMatchesAt(alts[0], s, pos);
      FirstCandidate(d, alts[1..], k + 1, s, pos, j - 1);
    }
  }

  /** On a zero-padded day number, `%d` first matches both digits. */
  lemma DayFirst(s: string, pos: nat, v: nat)
    requires 1 <= v <= 31 && pos + 2 <= |s| && s[pos..pos + 2] == Pad2(v)
    ensures |Candidates(Day, s, pos)| > 0 && Candidates(Day, s, pos)[0] == Candidate(2, v)
  {
    Pad2Value(v);
    assert s[pos + 0] == DigitChar(v / 10) && s[pos + 1] == DigitChar(v % 10);
    if v >= 30 {
      DayFirstThirties(s, pos, v);
    } else if v >= 10 {
      DayFirstTens(s, pos, v);
    } else {
      DayFirstUnits(s, pos, v);
    }
  }

  lemma DayFirstThirties(s: string, pos: nat, v: nat)
    requires 30 <= v <= 31 && pos + 2 <= |s| && s[pos..pos + 2] == Pad2(v) && NumberValue(s[pos..pos + 2]) == v
    requires s[pos + 0] == DigitChar(v / 10) && s[pos + 1] == DigitChar(v % 10)
    ensures |Candidates(Day, s, pos)| > 0 && Candidates(Day, s, pos)[0] == Candidate(2, v)
  {
    var alts := Alternatives(Day);
    assert AltMatchesAt(alts[0], s, pos);
    FirstCandidate(Day, alts, 0, s, pos, 0);
  }

  lemma DayFirstTens(s: string, pos: nat, v: nat)
    requires 10 <= v < 30 && pos + 2 <= |s| && s[pos..pos + 2] == Pad2(v) && NumberValue(s[pos..pos + 2]) == v
    requires s[pos + 0] == DigitChar(v / 10) && s[pos + 1] == DigitChar(v % 10)
    ensures |Candidates(Day, s, pos)| > 0 && Candidates(Day, s, pos)[0] == Candidate(2, v)
  {
    var alts := Alternatives(Day);
    assert !ClassMatches(alts[0][0], s[pos + 0]);
    assert AltMatchesAt(alts[1], s, pos);
    FirstCandidate(Day, alts, 0, s, pos, 1);
  }

  lemma DayFirstUnits(s: string, pos: nat, v: nat)
    requires 1 <= v < 10 && pos + 2 <= |s| && s[pos..pos + 2] == Pad2(v) && NumberValue(s[pos..pos + 2]) == v
    requires s[pos + 0] == DigitChar(v / 10) && s[pos + 1] == DigitChar(v % 10)
    ensures |Candidates(Day, s, pos)| > 0 && Candidates(Day, s, pos)[0] == Candidate(2, v)
  {
    var alts := Alternatives(Day);
    assert !ClassMatches(alts[0][0], s[pos + 0]);
    assert !ClassMatches(alts[1][0], s[pos + 0]);
    assert AltMatchesAt(alts[2], s, pos);
    FirstCandidate(Day, alts, 0, s, pos, 2);
  }

  /** On a zero-padded month number, `%m` first matches both digits. */
  lemma MonthFirst(s: string, pos: nat, v: nat)
    requires 1 <= v <= 12 && pos + 2 <= |s| && s[pos..pos + 2] == Pad2(v)
    ensures |Candidates(Month, s, pos)| > 0 && Candidates(Month, s, pos)[0] == Candidate(2, v)
  {
    Pad2Value(v);
    var alts := Alternatives(Month);
    assert s[pos + 0] == DigitChar(v / 10) && s[pos + 1] == DigitChar(v % 10);
    if v >= 10 {
      assert AltMatchesAt(alts[0], s, pos);
      FirstCandidate(Month, alts, 0, s, pos, 0);
    } else {
      assert !ClassMatches(alts[0][0], s[pos + 0]);
      assert AltMatchesAt(alts[1], s, pos);
      FirstCandidate(Month, alts, 0, s, pos, 1);
    }
  }

  lemma YearOnly(s: string, pos: nat, y: nat)
    requires y < 10000 && pos + 4 <= |s| && s[pos..pos + 4] == Pad4(y)
    ensures Candidates(Year, s, pos) == [Candidate(4, y)]
  {
    Pad4Value(y);
    var alts := Alternatives(Year);
    var t := Pad4(y);
    assert forall i :: 0 <= i < 4 ==> s[pos + i] == t[i] && IsDigit(t[i]);
    assert AltMatchesAt(alts[0], s, pos);
    assert alts[1..] == [];
    assert CandidatesFrom(Year, alts, 0, s, pos) == [Candidate(4, NumberValue(s[pos..pos + 4]))] + CandidatesFrom(Year, alts[1..], 1, s, pos);
  }

  /** A group whose first candidate lets the rest of the expression match takes that candidate. */
  lemma FieldStep(items: seq<Item>, s: string, pos: nat, c: Candidate, f: Found)
    requires items != [] && items[0].Field? && pos <= |s|
    requires var cs := Candidates(items[0].dir, s, pos); |cs| > 0 && cs[0] == c
    requires pos + c.len <= |s| && MatchFrom(items[1..], s, pos + c.len) == Some(f)
    ensures MatchFrom(items, s, pos) == Some(Found(f.end, [Capture(items[0].dir, c.value)] + f.captures))
  {
  }

  lemma LookupAbsent(cs: seq<Capture>, d: Directive)
    requires forall i :: 0 <= i < |cs| ==> cs[i].dir != d
    ensures Lookup(cs, d) == None
  {
  }

  lemma LitStep(items: seq<Item>, s: string, pos: nat)
    requires items != [] && items[0].Lit? && pos < |s| && s[pos] == items[0].c
    ensures MatchFrom(items, s, pos) == MatchFrom(items[1..], s, pos + 1)
  {
  }

  /** The `/%Y` tail of a formatted date matches its year. */
  lemma YearTail(d: Date, s: string)
    requires IsValidDate(d) && s == FormatDmy(d)
    ensures MatchFrom(DmySlash[3..], s, 5) == Some(Found(10, [Capture(Year, d.year)]))
  {
    var items := DmySlash;
    assert s[6..10] == Pad4(d.year);
    YearOnly(s, 6, d.year);
    assert items[4..][1..] == [];
    FieldStep(items[4..], s, 6, Candidate(4, d.year), Found(10, []));
    assert items[3..][1..] == items[4..];
    LitStep(items[3..], s, 5);
    assert [Capture(Year, d.year)] + [] == [Capture(Year, d.year)];
  }

  /** The `/%m/%Y` tail of a formatted date matches its month and year. */
  lemma MonthYearTail(d: Date, s: string)
    requires IsValidDate(d) && s == FormatDmy(d)
    ensures MatchFrom(DmySlash[1..], s, 2) == Some(Found(10, [Capture(Month, d.month), Capture(Year, d.year)]))
  {
    var items := DmySlash;
    var fy := Found(10, [Capture(Year, d.year)]);
    YearTail(d, s);
    assert s[3..5] == Pad2(d.month);
    MonthFirst(s, 3, d.month);
    assert items[2..][1..] == items[3..];
    FieldStep(items[2..], s, 3, Candidate(2, d.month), fy);
    assert items[1..][1..] == items[2..];
    LitStep(items[1..], s, 2);
    assert [Capture(Month, d.month)] + fy.captures == [Capture(Month, d.month), Capture(Year, d.year)];
  }

  /** `strptime(d.strftime("%d/%m/%Y"), "%d/%m/%Y")` is `d` at midnight. */
  lemma ParseFormatDmy(d: Date)
    requires IsValidDate(d)
    ensures Strptime(DmySlash, FormatDmy(d)) == Some(Midnight(d))
  {
    var s := FormatDmy(d);
    var items := DmySlash;
    assert s[0..2] == Pad2(d.day);
    MonthYearTail(d, s);
    var fm := Found(10, [Capture(Month, d.month), Capture(Year, d.year)]);
    DayFirst(s, 0, d.day);
    var cs := [Capture(Day, d.day), Capture(Month, d.month), Capture(Year, d.year)];
    FieldStep(items, s, 0, Candidate(2, d.day), fm);
    assert [Capture(Day, d.day)] + fm.captures == cs;
    assert cs[1..][1..] == [Capture(Year, d.year)];
    assert Lookup(cs[1..][1..], Year) == Some(d.year);
    assert Lookup(cs[1..], Year) == Some(d.year);
    assert Lookup(cs, Year) == Some(d.year);
    assert Lookup(cs, Month) == Some(d.month);
    LookupAbsent(cs, Hour24);
    LookupAbsent(cs, Hour12);
    LookupAbsent(cs, Minute);
  }
}
