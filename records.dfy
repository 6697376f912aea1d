/** The records the two batch jobs share: the progress record, the index of day
    slots, the two subjects, and the name under which a day's summary is stored.
    Both jobs derive that name from the day number and the subject, so the sender
    finds exactly the file the generator wrote. */
module Records {

  datatype Option<+T> = None | Some(value: T)

  /** The two subjects a day slot can hold. */
  datatype Subject = Pharmacology | Anatomy {
    /** The word used for the subject in file names and in index keys. */
    function Name(): string {
      match this
      case Pharmacology => "pharmacology"
      case Anatomy => "anatomy"
    }
  }

  /** A calendar date in ISO form ("2024-06-01"); only compared for equality. */
  type Date = string

  /** The cursor the sender keeps in progress.json. */
  datatype Progress = Progress(
    currentDay: int,           // next day slot to deliver, 1-based
    lastSentDate: Option<Date>,
    totalDays: int,
    completed: bool,
    sentCount: int)

  /** The record both jobs create when none exists: day 1 of `totalDays`, nothing sent. */
  function InitialProgress(totalDays: int): (p: Progress)
    ensures p.currentDay == 1 && p.sentCount == 0 && !p.completed && p.lastSentDate == None
    ensures p.totalDays == totalDays
  {
    Progress(1, None, totalDays, false, 0)
  }

  /** One subject's part of an index entry. */
  datatype SourceRef = SourceRef(original: string, summary: string, title: string)

  /** One day slot of the index; a subject is present only when its summary was made. */
  datatype DayEntry = DayEntry(day: int, pharmacology: Option<SourceRef>, anatomy: Option<SourceRef>) {
    function Ref(s: Subject): Option<SourceRef> {
      match s
      case Pharmacology => pharmacology
      case Anatomy => anatomy
    }
  }

  /** index.json. */
  datatype Index = Index(totalDays: int, createdAt: string, files: seq<DayEntry>)

  // ---------------------------------------------------------------------------
  // Decimal numerals and Python's "{:02d}" format
  // ---------------------------------------------------------------------------

  predicate IsDigit(c: char) {
    '0' <= c <= '9'
  }

  predicate AllDigits(s: string) {
    forall i :: 0 <= i < |s| ==> IsDigit(s[i])
  }

  function DigitChar(d: nat): (c: char)
    requires d < 10
    ensures IsDigit(c) && c as int - '0' as int == d
  {
    ('0' as int + d) as char
  }

  /** The shortest decimal numeral of `n`. */
  function Decimal(n: nat): (s: string)
    ensures s != [] && AllDigits(s)
    ensures n < 10 <==> |s| == 1
  {
    if n < 10 then [DigitChar(n)] else Decimal(n / 10) + [DigitChar(n % 10)]
  }

  /** The value of a numeral made of decimal digits, most significant first. */
  function DigitsValue(s: string): nat
    requires AllDigits(s)
  {
    if s == [] then 0 else DigitsValue(s[..|s| - 1]) * 10 + (s[|s| - 1] as int - '0' as int)
  }

  lemma {:induction false} DecimalValue(n: nat)
    ensures DigitsValue(Decimal(n)) == n
  {
    if n >= 10 {
      var s := Decimal(n);
      assert s[..|s| - 1] == Decimal(n / 10);
      DecimalValue(n / 10);
    }
  }

  /** Python's `f"{n:02d}"`: the decimal numeral of `n`, zero-padded on the left to
      two characters; a negative number keeps its sign in front and is not padded
      further, since "-5" already has two characters. */
  function Format02d(n: int): (s: string)
    ensures |s| >= 2
    ensures n >= 0 ==> AllDigits(s)
    ensures n < 0 ==> s[0] == '-' && AllDigits(s[1..])
  {
    if n < 0 then "-" + Decimal(-n)
    else if n < 10 then "0" + Decimal(n)
    else Decimal(n)
  }

  /** Reads back a numeral written by Format02d: optional minus sign, then digits. */
  function NumeralValue(s: string): Option<int> {
    if |s| >= 2 && s[0] == '-' && AllDigits(s[1..]) then Some(-(DigitsValue(s[1..]) as int))
    else if s != [] && AllDigits(s) then Some(DigitsValue(s))
    else None
  }

  lemma Format02dRoundTrip(n: int)
    ensures NumeralValue(Format02d(n)) == Some(n)
  {
    if n < 0 {
      var s := Format02d(n);
      assert s[1..] == Decimal(-n);
      DecimalValue(-n);
    } else if n < 10 {
      var s := Format02d(n);
      assert s == ['0', DigitChar(n)];
      assert s[..1] == "0" && s[..1][..0] == [];
      assert DigitsValue(s[..1]) == 0;
      assert DigitsValue(s) == n;
    } else {
      DecimalValue(n);
    }
  }

  /** `2 ** k`, the pause in seconds both retry loops take after failed attempt `k`. */
  function Pow2(k: nat): (r: nat)
    ensures r >= 1
  {
    if k == 0 then 1 else 2 * Pow2(k - 1)
  }

  // ---------------------------------------------------------------------------
  // Summary file names: day<NN>_<subject>.md
  // ---------------------------------------------------------------------------

  /** The file a day's summary of `subject` is stored under, `f"day{day:02d}_{subject}.md"`. */
  function SummaryFileName(day: int, subject: Subject): string {
    "day" + Format02d(day) + "_" + subject.Name() + ".md"
  }

  /** Position of the first '_' in `s`, or |s| when there is none. */
  function FirstUnderscore(s: string): (i: nat)
    ensures i <= |s| && (i < |s| ==> s[i] == '_')
    ensures forall j :: 0 <= j < i ==> s[j] != '_'
  {
    if s == [] then 0 else if s[0] == '_' then 0 else 1 + FirstUnderscore(s[1..])
  }

  /** Recovers the day and the subject from a summary file name. */
  function ParseSummaryFileName(name: string): Option<(int, Subject)> {
    if |name| < 3 || name[..3] != "day" then None else ParseNumberedTail(name[3..])
  }

  /** Parses "<NN>_<subject>.md", what follows "day" in a summary file name. */
  function ParseNumberedTail(rest: string): Option<(int, Subject)> {
    var i := FirstUnderscore(rest);
    if i == |rest| then None
    else
      match NumeralValue(rest[..i])
      case None => None
      case Some(d) => match ParseSubjectTail(rest[i + 1..])
        case None => None
        case Some(s) => Some((d, s))
  }

  function ParseSubjectTail(tail: string): Option<Subject> {
    if tail == "pharmacology.md" then Some(Pharmacology)
    else if tail == "anatomy.md" then Some(Anatomy)
    else None
  }

  /** Nothing of `f` is mistaken for the separator. */
  lemma {:induction false} FirstUnderscoreAfter(f: string, t: string)
    requires forall j :: 0 <= j < |f| ==> f[j] != '_'
    ensures FirstUnderscore(f + "_" + t) == |f|
  {
    if f != [] {
      assert (f + "_" + t)[1..] == f[1..] + "_" + t;
      FirstUnderscoreAfter(f[1..], t);
    }
  }

  lemma NoUnderscoreInNumeral(n: int)
    ensures forall j :: 0 <= j < |Format02d(n)| ==> Format02d(n)[j] != '_'
  {
    var f := Format02d(n);
    forall j | 0 <= j < |f| ensures f[j] != '_' {
      if n < 0 && j > 0 { assert f[j] == f[1..][j - 1]; }
    }
  }

  lemma SubjectTailRoundTrip(subject: Subject)
    ensures ParseSubjectTail(subject.Name() + ".md") == Some(subject)
  {
    match subject
    case Pharmacology => assert subject.Name() + ".md" == "pharmacology.md";
    case Anatomy => assert subject.Name() + ".md" == "anatomy.md";
  }

  lemma NumberedTailRoundTrip(f: string, d: int, tail: string, subject: Subject)
    requires NumeralValue(f) == Some(d) && ParseSubjectTail(tail) == Some(subject)
    requires forall j :: 0 <= j < |f| ==> f[j] != '_'
    ensures ParseNumberedTail(f + "_" + tail) == Some((d, subject))
  {
    var rest := f + "_" + tail;
    FirstUnderscoreAfter(f, tail);
    assert rest[..|f|] == f;
    assert rest[|f| + 1..] == tail;
  }

  /** The name determines the day and the subject it was made from. */
  lemma SummaryFileNameRoundTrip(day: int, subject: Subject)
    ensures ParseSummaryFileName(SummaryFileName(day, subject)) == Some((day, subject))
  {
    var tail := subject.Name() + ".md";
    var rest := Format02d(day) + "_" + tail;
    NameSplits(day, subject);
    ParseAfterDay(rest);
    NoUnderscoreInNumeral(day);
    Format02dRoundTrip(day);
    SubjectTailRoundTrip(subject);
    NumberedTailRoundTrip(Format02d(day), day, tail, subject);
  }

  lemma NameSplits(day: int, subject: Subject)
    ensures SummaryFileName(day, subject) == "day" + (Format02d(day) + "_" + (subject.Name() + ".md"))
  {
    var f, t := Format02d(day), subject.Name() + ".md";
    assert subject.Name() + ".md" == t;
    assert "day" + f + "_" + subject.Name() + ".md" == "day" + f + "_" + t;
    assert "day" + f + "_" + t == "day" + (f + "_" + t);
  }

  /** A name starting with "day" is parsed by what follows it. */
  lemma ParseAfterDay(rest: string)
    ensures ParseSummaryFileName("day" + rest) == ParseNumberedTail(rest)
  {
    assert ("day" + rest)[..3] == "day" && ("day" + rest)[3..] == rest;
  }

  /** Different days or subjects never share a summary file. */
  lemma SummaryFileNamesDiffer(d1: int, s1: Subject, d2: int, s2: Subject)
    requires d1 != d2 || s1 != s2
    ensures SummaryFileName(d1, s1) != SummaryFileName(d2, s2)
  {
    SummaryFileNameRoundTrip(d1, s1);
    SummaryFileNameRoundTrip(d2, s2);
  }

  /** Two (day, subject) pairs never share a summary file. */
  lemma SummaryFileNameInjective(d1: int, s1: Subject, d2: int, s2: Subject)
    requires SummaryFileName(d1, s1) == SummaryFileName(d2, s2)
    ensures d1 == d2 && s1 == s2
  {
    SummaryFileNameRoundTrip(d1, s1);
    SummaryFileNameRoundTrip(d2, s2);
  }
}
