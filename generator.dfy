/** The one-off generator (setup.py): it reads the two folders of lecture PDFs,
    orders each folder by the date in the file names, pairs the two lists by
    position into day slots, asks the model for a summary of every source that has
    text, and writes the summaries, index.json and a fresh progress.json.

    The folder listings, the text PyPDF2 extracts and the model's replies are
    inputs: each source is a `Document` carrying its file name, its extracted
    text and, attempt by attempt, what the API call returned. */
module Generator {
  import opened Records
  import opened PyText

  /** `generate_summary`'s default number of attempts. */
  const DefaultRetries: int := 3

  /** How many characters of a document the prompt takes. */
  const PromptLimit: int := 15000

  // ---------------------------------------------------------------------------
  // File names: YYYYMMDD_<title>.pdf (extract_date_from_filename)
  // ---------------------------------------------------------------------------

  /** The pattern `(\d{8})_(.+)\.pdf`, matched from the start of `name`, can end
      its title group at position `k`: eight digits, an underscore, a title of at
      least one character without a line break, and ".pdf" at `k`. */
  predicate DatedAt(name: string, k: int) {
    && 10 <= k && k + 4 <= |name|
    && AllDigits(name[..8]) && name[8] == '_'
    && name[k..k + 4] == ".pdf"
    && forall j :: 9 <= j < k ==> name[j] != '\n'
  }

  /** The last position at or before `k` where the title may end: the greedy
      `.+` gives back characters until `\.pdf` follows. */
  function LastDatedAt(name: string, k: int): (r: Option<int>)
    ensures r.Some? ==> r.value <= k && DatedAt(name, r.value)
    ensures forall j :: (if r.Some? then r.value else 9) < j <= k ==> !DatedAt(name, j)
    ensures r.None? ==> forall j :: j <= k ==> !DatedAt(name, j)
    decreases k
  {
    if k < 10 then None
    else if DatedAt(name, k) then Some(k)
    else LastDatedAt(name, k - 1)
  }

  /** `extract_date_from_filename`: the date and the title of a dated file name;
      any other name gets the date "00000000" and itself, every ".pdf" removed,
      as title. The match is not anchored at the end, and the title runs to the
      last ".pdf" that the title group can reach. */
  function ExtractDate(name: string): (r: (string, string))
    ensures (exists k :: DatedAt(name, k)) ==>
              exists k :: DatedAt(name, k) && (forall j :: k < j ==> !DatedAt(name, j))
                          && r == (name[..8], name[9..k])
    ensures (forall k :: !DatedAt(name, k)) ==> r == ("00000000", RemoveAll(name, ".pdf"))
  {
    match LastDatedAt(name, |name| - 4)
    case Some(k) => (name[..8], name[9..k])
    case None => ("00000000", RemoveAll(name, ".pdf"))
  }

  /** After a ".pdf" followed by text without another ".pdf", no later position
      starts a ".pdf". */
  lemma NoLaterPdf(name: string, k: int, rest: string, j: int)
    requires 0 <= k && k + 4 <= |name| && name[k..k + 4] == ".pdf" && name[k + 4..] == rest
    requires forall i :: !OccursAt(rest, ".pdf", i)
    requires k < j && j + 4 <= |name|
    ensures name[j..j + 4] != ".pdf"
  {
    if j < k + 4 {
      assert name[j] == name[k..k + 4][j - k] && name[j] != '.';
      assert name[j..j + 4][0] == name[j];
    } else {
      var m := j - k - 4;
      assert 0 <= m && m + 4 <= |rest|;
      var here, there := name[j..j + 4], rest[m..m + 4];
      forall t | 0 <= t < 4 ensures here[t] == there[t] {
        assert rest[m + t] == name[k + 4 + m + t];
      }
      assert here == there;
      assert !OccursAt(rest, ".pdf", m);
    }
  }

  /** The match is anchored only at the start: after a dated name's ".pdf" any
      text without another ".pdf" may follow and is ignored. */
  lemma TextAfterPdfIsIgnored(date: string, title: string, rest: string)
    requires |date| == 8 && AllDigits(date)
    requires title != [] && forall j :: 0 <= j < |title| ==> title[j] != '\n'
    requires forall i :: !OccursAt(rest, ".pdf", i)
    ensures ExtractDate(date + "_" + title + ".pdf" + rest) == (date, title)
  {
    var name := date + "_" + title + ".pdf" + rest;
    var k := 9 + |title|;
    assert name[..8] == date && name[8] == '_' && name[9..k] == title && name[k..k + 4] == ".pdf";
    assert name[k + 4..] == rest;
    assert forall j :: 9 <= j < k ==> name[j] == title[j - 9];
    assert DatedAt(name, k);
    forall j | k < j ensures !DatedAt(name, j) {
      if j + 4 <= |name| {
        NoLaterPdf(name, k, rest, j);
      }
    }
  }

  /** A file name made of a date, an underscore, a one-line title and ".pdf"
      gives back that date and that title. */
  lemma ExtractDateRoundTrip(date: string, title: string)
    requires |date| == 8 && AllDigits(date)
    requires title != [] && forall j :: 0 <= j < |title| ==> title[j] != '\n'
    ensures ExtractDate(date + "_" + title + ".pdf") == (date, title)
  {
    TextAfterPdfIsIgnored(date, title, "");
    assert date + "_" + title + ".pdf" + "" == date + "_" + title + ".pdf";
  }

  /** An undated name ending in ".pdf", with no other ".pdf" in it, gets that
      name without the ending as its title. */
  lemma UndatedNameTitle(x: string)
    requires forall i :: !OccursAt(x, ".pdf", i)
    requires forall k :: !DatedAt(x + ".pdf", k)
    ensures ExtractDate(x + ".pdf") == ("00000000", x)
  {
    RemoveAllTrailing(x);
  }

  /** The date part is always eight decimal digits. */
  lemma DateKeyIsEightDigits(name: string)
    ensures |ExtractDate(name).0| == 8 && AllDigits(ExtractDate(name).0)
  {
  }

  function Zeros(n: nat): (z: string)
    ensures |z| == n && AllDigits(z)
  {
    if n == 0 then [] else ['0'] + Zeros(n - 1)
  }

  /** Among numerals of one length, all zeros is the least. */
  lemma {:induction false} ZerosAreLeast(s: string)
    requires AllDigits(s) && s != Zeros(|s|)
    ensures StrLt(Zeros(|s|), s)
  {
    if s[0] == '0' {
      assert s == [s[0]] + s[1..];
      ZerosAreLeast(s[1..]);
    }
  }

  // ---------------------------------------------------------------------------
  // Sources, the sort by date key, and the pairing into day slots (scan_pdf_files)
  // ---------------------------------------------------------------------------

  /** What one API call in generate_summary produced: an exception with its
      message, or a response with its text. */
  datatype Reply = Raised(error: string) | Returned(text: string)

  /** One source PDF: its file name, the text extract_text_from_pdf returns for it
      (empty when the PDF cannot be read), and the replies the API gives when
      asked for its summary. */
  datatype Document = Document(name: string, text: string, replies: seq<Reply>)

  /** scan_pdf_files' sort key. */
  function Key(d: Document): string {
    ExtractDate(d.name).0
  }

  /** `d` between the elements of `s` whose key is below its own and the rest. */
  function Insert(key: Document -> string, d: Document, s: seq<Document>): (r: seq<Document>)
    ensures |r| == |s| + 1
  {
    if s == [] then [d]
    else if !StrLt(key(s[0]), key(d)) then [d] + s
    else [s[0]] + Insert(key, d, s[1..])
  }

  /** `sorted(docs, key=key)`: Python's stable sort. */
  function SortBy(key: Document -> string, docs: seq<Document>): (r: seq<Document>)
    ensures |r| == |docs|
  {
    if docs == [] then [] else Insert(key, docs[0], SortBy(key, docs[1..]))
  }

  /** No later element has a key below an earlier one. */
  predicate SortedBy(key: Document -> string, s: seq<Document>) {
    forall i, j :: 0 <= i < j < |s| ==> !StrLt(key(s[j]), key(s[i]))
  }

  /** The elements of `s` with key `k`, in their order. */
  function WithKey(key: Document -> string, s: seq<Document>, k: string): seq<Document> {
    if s == [] then []
    else (if key(s[0]) == k then [s[0]] else []) + WithKey(key, s[1..], k)
  }

  lemma {:induction false} InsertPermutes(key: Document -> string, d: Document, s: seq<Document>)
    ensures multiset(Insert(key, d, s)) == multiset(s) + multiset{d}
  {
    if s != [] && StrLt(key(s[0]), key(d)) {
      InsertPermutes(key, d, s[1..]);
      assert s == [s[0]] + s[1..];
    }
  }

  lemma {:induction false} InsertSorted(key: Document -> string, d: Document, s: seq<Document>)
    requires SortedBy(key, s)
    ensures SortedBy(key, Insert(key, d, s))
  {
    if s == [] {
    } else if !StrLt(key(s[0]), key(d)) {
      var r := [d] + s;
      forall i, j | 0 <= i < j < |r| ensures !StrLt(key(r[j]), key(r[i])) {
        if i == 0 && j > 1 {
          NotLtTransitive(key(d), key(s[0]), key(s[j - 1]));
        }
      }
    } else {
      var t := Insert(key, d, s[1..]);
      InsertSorted(key, d, s[1..]);
      InsertPermutes(key, d, s[1..]);
      StrLtAsymmetric(key(s[0]), key(d));
      var r := [s[0]] + t;
      forall i, j | 0 <= i < j < |r| ensures !StrLt(key(r[j]), key(r[i])) {
        if i == 0 {
          assert r[j] in multiset(t);
          assert r[j] == d || r[j] in multiset(s[1..]);
          if r[j] != d {
            var m :| 0 <= m < |s[1..]| && s[1..][m] == r[j];
            assert s[m + 1] == r[j];
          }
        }
      }
    }
  }

  /** Insertion puts `d` in front of every element with its own key. */
  lemma {:induction false} InsertKeepsKeyOrder(key: Document -> string, d: Document, s: seq<Document>, k: string)
    ensures WithKey(key, Insert(key, d, s), k) == (if key(d) == k then [d] else []) + WithKey(key, s, k)
  {
    var mine: seq<Document> := if key(d) == k then [d] else [];
    if s == [] {
      assert WithKey(key, [d], k) == mine + WithKey(key, [d][1..], k);
    } else if !StrLt(key(s[0]), key(d)) {
      var r := [d] + s;
      assert r[0] == d && r[1..] == s;
      assert WithKey(key, r, k) == mine + WithKey(key, s, k);
    } else {
      var t := Insert(key, d, s[1..]);
      var r := [s[0]] + t;
      assert r[0] == s[0] && r[1..] == t;
      var theirs: seq<Document> := if key(s[0]) == k then [s[0]] else [];
      InsertKeepsKeyOrder(key, d, s[1..], k);
      assert WithKey(key, r, k) == theirs + WithKey(key, t, k);
      assert WithKey(key, t, k) == mine + WithKey(key, s[1..], k);
      assert WithKey(key, s, k) == theirs + WithKey(key, s[1..], k);
      if key(s[0]) == k {
        StrLtIrreflexive(key(d));
        assert key(d) != k;
        assert mine == [];
        assert mine + WithKey(key, s[1..], k) == WithKey(key, s[1..], k);
      } else {
        assert theirs == [];
        assert theirs + WithKey(key, t, k) == WithKey(key, t, k);
        assert theirs + WithKey(key, s[1..], k) == WithKey(key, s[1..], k);
      }
    }
  }

  /** The sort is a stable permutation into key order. */
  lemma {:induction false} SortByCorrect(key: Document -> string, docs: seq<Document>)
    ensures SortedBy(key, SortBy(key, docs))
    ensures multiset(SortBy(key, docs)) == multiset(docs)
    ensures forall k :: WithKey(key, SortBy(key, docs), k) == WithKey(key, docs, k)
  {
    if docs != [] {
      SortByCorrect(key, docs[1..]);
      InsertSorted(key, docs[0], SortBy(key, docs[1..]));
      InsertPermutes(key, docs[0], SortBy(key, docs[1..]));
      assert docs == [docs[0]] + docs[1..];
      forall k ensures WithKey(key, SortBy(key, docs), k) == WithKey(key, docs, k) {
        InsertKeepsKeyOrder(key, docs[0], SortBy(key, docs[1..]), k);
      }
    }
  }

  /** scan_pdf_files' ordering of one folder: its files in non-decreasing order
      of date key, files with the same key in their listing order. */
  function SortByDate(docs: seq<Document>): (r: seq<Document>)
    ensures SortedBy(Key, r)
    ensures multiset(r) == multiset(docs)
    ensures forall k :: WithKey(Key, r, k) == WithKey(Key, docs, k)
  {
    SortByCorrect(Key, docs);
    SortBy(Key, docs)
  }

  /** Sources without a date in their names come before every dated one. */
  lemma UndatedComeFirst(docs: seq<Document>)
    ensures var r := SortByDate(docs);
            forall i, j :: 0 <= i < j < |r| && Key(r[j]) == "00000000" ==> Key(r[i]) == "00000000"
  {
    var r := SortByDate(docs);
    SortByCorrect(Key, docs);
    assert SortedBy(Key, r);
    forall i, j | 0 <= i < j < |r| && Key(r[j]) == "00000000" ensures Key(r[i]) == "00000000" {
      DateKeyIsEightDigits(r[i].name);
      assert !StrLt(Key(r[j]), Key(r[i]));
      NothingBelowZeros(Key(r[i]));
    }
  }

  /** An eight-digit key that "00000000" does not precede is "00000000" itself. */
  lemma NothingBelowZeros(k: string)
    requires |k| == 8 && AllDigits(k) && !StrLt("00000000", k)
    ensures k == "00000000"
  {
    assert Zeros(8) == "00000000";
    if k != "00000000" {
      ZerosAreLeast(k);
    }
  }

  /** A day slot: the pharmacology and the anatomy source of that day, if any. */
  type Slot = (Option<Document>, Option<Document>)

  function Source(slot: Slot, subject: Subject): Option<Document> {
    match subject
    case Pharmacology => slot.0
    case Anatomy => slot.1
  }

  /** `s[i] if i < len(s) else None`. */
  function At(s: seq<Document>, i: int): Option<Document> {
    if 0 <= i < |s| then Some(s[i]) else None
  }

  function Rest(s: seq<Document>): seq<Document> {
    if s == [] then [] else s[1..]
  }

  /** The two lists side by side, as long as the longer one: slot `i` holds the
      `i`-th source of each list, where there is one. */
  function Pairing(ps: seq<Document>, an: seq<Document>): (r: seq<Slot>)
    ensures |r| == if |ps| >= |an| then |ps| else |an|
    ensures forall i :: 0 <= i < |r| ==> r[i] == (At(ps, i), At(an, i))
    ensures forall i :: 0 <= i < |r| ==> r[i].0.Some? || r[i].1.Some?
    decreases |ps| + |an|
  {
    if ps == [] && an == [] then []
    else
      var t := Pairing(Rest(ps), Rest(an));
      assert forall i :: 1 <= i < |ps| ==> ps[i] == Rest(ps)[i - 1];
      assert forall i :: 1 <= i < |an| ==> an[i] == Rest(an)[i - 1];
      [(At(ps, 0), At(an, 0))] + t
  }

  /** scan_pdf_files: sort each folder by date key, then pair by position. */
  method ScanPdfFiles(pharmaDocs: seq<Document>, anatomyDocs: seq<Document>) returns (pairs: seq<Slot>)
    ensures pairs == Pairing(SortByDate(pharmaDocs), SortByDate(anatomyDocs))
  {
    var ps := SortByDate(pharmaDocs);
    var an := SortByDate(anatomyDocs);
    pairs := PairUp(ps, an);
  }

  /** The pairing loop of scan_pdf_files over the two sorted lists. */
  method PairUp(ps: seq<Document>, an: seq<Document>) returns (pairs: seq<Slot>)
    ensures pairs == Pairing(ps, an)
  {
    var maxLen := if |ps| >= |an| then |ps| else |an|;
    pairs := [];
    for i := 0 to maxLen
      invariant |pairs| == i
      invariant forall j :: 0 <= j < i ==> pairs[j] == (At(ps, j), At(an, j))
    {
      var pharma := if i < |ps| then Some(ps[i]) else None;
      var anatomy := if i < |an| then Some(an[i]) else None;
      if pharma.Some? || anatomy.Some? {
        pairs := pairs + [(pharma, anatomy)];
      }
    }
    PairingIsPositional(ps, an, pairs);
  }

  /** The positional slots of the two lists are their Pairing. */
  lemma PairingIsPositional(ps: seq<Document>, an: seq<Document>, pairs: seq<Slot>)
    requires |pairs| == if |ps| >= |an| then |ps| else |an|
    requires forall j :: 0 <= j < |pairs| ==> pairs[j] == (At(ps, j), At(an, j))
    ensures pairs == Pairing(ps, an)
  {
  }

  /** The slots hold every source exactly once, in date order per subject, and
      never a slot with neither. */
  lemma ScanCorrect(pharmaDocs: seq<Document>, anatomyDocs: seq<Document>)
    ensures var pairs := Pairing(SortByDate(pharmaDocs), SortByDate(anatomyDocs));
            && |pairs| == (if |pharmaDocs| >= |anatomyDocs| then |pharmaDocs| else |anatomyDocs|)
            && (forall i :: 0 <= i < |pairs| ==> pairs[i].0.Some? || pairs[i].1.Some?)
            && SortedBy(Key, SortByDate(pharmaDocs)) && SortedBy(Key, SortByDate(anatomyDocs))
            && multiset(SortByDate(pharmaDocs)) == multiset(pharmaDocs)
            && multiset(SortByDate(anatomyDocs)) == multiset(anatomyDocs)
  {
    SortByCorrect(Key, pharmaDocs);
    SortByCorrect(Key, anatomyDocs);
  }

  // ---------------------------------------------------------------------------
  // One summary (generate_summary)
  // ---------------------------------------------------------------------------

  /** A prompt template with its one `{pdf_content}` placeholder: the text before
      it and the text after it. */
  datatype Template = Template(before: string, after: string)

  /** `template.format(pdf_content=content[:15000])`. */
  function BuildPrompt(t: Template, content: string): (p: string)
    ensures |p| <= |t.before| + PromptLimit + |t.after|
  {
    var n := if |content| < PromptLimit then |content| else PromptLimit;
    t.before + content[..n] + t.after
  }

  /** Only the first 15000 characters of a document reach the prompt. */
  lemma PromptSeesOnlyTheHead(t: Template, c1: string, c2: string)
    requires |c1| >= PromptLimit && |c2| >= PromptLimit && c1[..PromptLimit] == c2[..PromptLimit]
    ensures BuildPrompt(t, c1) == BuildPrompt(t, c2)
  {
  }

  /** What generate_summary writes when it gives up. */
  const FailureHeading: string := "# 요약 생성 실패\n\n"

  function ErrorPlaceholder(error: string): string {
    FailureHeading + "오류: " + error
  }

  const UnknownPlaceholder: string := FailureHeading + "알 수 없는 오류"

  /** A response whose text is not empty ends the loop. */
  predicate Answered(r: Reply) {
    r.Returned? && r.text != ""
  }

  /** The summary text, the attempts made, and the pauses taken. */
  datatype Summary = Summary(text: string, attempts: nat, waits: seq<nat>)

  /** The pauses of the attempts `a` up to `hi`: 2^attempt after an exception on
      an attempt that is not the last of `n`. */
  function Pauses(replies: seq<Reply>, n: int, a: nat, hi: int): seq<nat>
    decreases hi - a
  {
    if a >= hi || a >= |replies| then []
    else (if replies[a].Raised? && a < n - 1 then [Pow2(a)] else []) + Pauses(replies, n, a + 1, hi)
  }

  /** The retry loop from attempt `a` on, with `n` attempts in all. */
  function SummarizeFrom(replies: seq<Reply>, n: int, a: nat): (s: Summary)
    requires n <= |replies|
    ensures if a < n then a < s.attempts <= n else s.attempts == a
    ensures s.waits == Pauses(replies, n, a, s.attempts)
    decreases n - a
  {
    if a >= n then Summary(UnknownPlaceholder, a, [])
    else
      match replies[a]
      case Returned(t) =>
        if t != "" then Summary(Strip(t), a + 1, [])
        else SummarizeFrom(replies, n, a + 1)
      case Raised(e) =>
        if a < n - 1 then
          var r := SummarizeFrom(replies, n, a + 1);
          Summary(r.text, r.attempts, [Pow2(a)] + r.waits)
        else Summary(ErrorPlaceholder(e), a + 1, [])
  }

  /** When some attempt from `a` on gets text, the loop ends with the first such
      text, stripped, right after that attempt. */
  lemma SummarizeFromAnswer(replies: seq<Reply>, n: int, a: nat, i: nat)
    requires n <= |replies| && a <= i < n && Answered(replies[i])
    requires forall j :: a <= j < i ==> !Answered(replies[j])
    ensures SummarizeFrom(replies, n, a).text == Strip(replies[i].text)
    ensures SummarizeFrom(replies, n, a).attempts == i + 1
  {
    SummarizeFromReaches(replies, n, a, i);
    SummarizeFromHit(replies, n, i);
  }

  /** Attempts without text before attempt `i` leave the outcome to attempt `i`. */
  lemma {:induction false} SummarizeFromReaches(replies: seq<Reply>, n: int, a: nat, i: nat)
    requires n <= |replies| && a <= i < n
    requires forall j :: a <= j < i ==> !Answered(replies[j])
    ensures SummarizeFrom(replies, n, a).text == SummarizeFrom(replies, n, i).text
    ensures SummarizeFrom(replies, n, a).attempts == SummarizeFrom(replies, n, i).attempts
    decreases i - a
  {
    if a < i {
      SummarizeFromSkip(replies, n, a);
      SummarizeFromReaches(replies, n, a + 1, i);
    }
  }

  /** An attempt with text ends the loop with that text, stripped. */
  lemma SummarizeFromHit(replies: seq<Reply>, n: int, a: nat)
    requires n <= |replies| && a < n && Answered(replies[a])
    ensures SummarizeFrom(replies, n, a).text == Strip(replies[a].text)
    ensures SummarizeFrom(replies, n, a).attempts == a + 1
  {
    assert replies[a] == Returned(replies[a].text);
  }

  /** An attempt without text that is not the last passes the loop on to the
      next attempt with the same outcome. */
  lemma SummarizeFromSkip(replies: seq<Reply>, n: int, a: nat)
    requires n <= |replies| && a < n - 1 && !Answered(replies[a])
    ensures SummarizeFrom(replies, n, a).text == SummarizeFrom(replies, n, a + 1).text
    ensures SummarizeFrom(replies, n, a).attempts == SummarizeFrom(replies, n, a + 1).attempts
  {
    match replies[a]
    case Raised(e) =>
    case Returned(t) => assert t == "";
  }

  /** When no attempt from `a` on gets text, the loop makes every attempt and ends
      with the placeholder of the last one. */
  lemma {:induction false} SummarizeFromNoAnswer(replies: seq<Reply>, n: int, a: nat)
    requires n <= |replies|
    requires forall j :: a <= j < n ==> !Answered(replies[j])
    ensures SummarizeFrom(replies, n, a).text ==
              if a < n && replies[n - 1].Raised? then ErrorPlaceholder(replies[n - 1].error) else UnknownPlaceholder
    ensures SummarizeFrom(replies, n, a).attempts == if a < n then n else a
    decreases n - a
  {
    if a < n - 1 {
      assert !Answered(replies[a]);
      SummarizeFromNoAnswer(replies, n, a + 1);
    } else if a == n - 1 {
      assert !Answered(replies[a]);
    }
  }

  /** generate_summary's loop over `n` attempts: the stripped text of the first
      response with text; when there is none, the error placeholder if the last
      attempt raised and the unknown-error placeholder otherwise. It pauses only
      after an exception on an attempt that is not the last. */
  function Summarize(replies: seq<Reply>, n: int): (s: Summary)
    requires n <= |replies|
    ensures s.attempts <= if n > 0 then n else 0
    ensures (exists i :: 0 <= i < n && Answered(replies[i])) ==>
              exists i :: 0 <= i < n && Answered(replies[i]) && (forall j :: 0 <= j < i ==> !Answered(replies[j]))
                          && s.text == Strip(replies[i].text) && s.attempts == i + 1
    ensures (forall i :: 0 <= i < n ==> !Answered(replies[i])) && n > 0 && replies[n - 1].Raised? ==>
              s.text == ErrorPlaceholder(replies[n - 1].error) && s.attempts == n
    ensures (forall i :: 0 <= i < n ==> !Answered(replies[i])) && (n <= 0 || replies[n - 1].Returned?) ==>
              s.text == UnknownPlaceholder && s.attempts == (if n > 0 then n else 0)
    ensures s.waits == Pauses(replies, n, 0, s.attempts)
  {
    SummarizeText(replies, n);
    SummarizeFrom(replies, n, 0)
  }

  /** The text the whole loop ends with: the first answer, or a placeholder. */
  lemma SummarizeText(replies: seq<Reply>, n: int)
    requires n <= |replies|
    ensures (exists i :: 0 <= i < n && Answered(replies[i])) ==>
              exists i :: 0 <= i < n && Answered(replies[i]) && (forall j :: 0 <= j < i ==> !Answered(replies[j]))
                          && SummarizeFrom(replies, n, 0).text == Strip(replies[i].text)
                          && SummarizeFrom(replies, n, 0).attempts == i + 1
    ensures (forall i :: 0 <= i < n ==> !Answered(replies[i])) ==>
              && SummarizeFrom(replies, n, 0).text ==
                   (if n > 0 && replies[n - 1].Raised? then ErrorPlaceholder(replies[n - 1].error) else UnknownPlaceholder)
              && SummarizeFrom(replies, n, 0).attempts == if n > 0 then n else 0
  {
    if forall i :: 0 <= i < n ==> !Answered(replies[i]) {
      SummarizeFromNoAnswer(replies, n, 0);
      return;
    }
    var i :| 0 <= i < n && Answered(replies[i]);
    EarliestAnswer(replies, i);
    var m :| 0 <= m <= i && Answered(replies[m]) && forall j :: 0 <= j < m ==> !Answered(replies[j]);
    SummarizeFromAnswer(replies, n, 0, m);
  }

  lemma {:induction false} EarliestAnswer(replies: seq<Reply>, i: nat)
    requires i < |replies| && Answered(replies[i])
    ensures exists m :: 0 <= m <= i && Answered(replies[m]) && forall j :: 0 <= j < m ==> !Answered(replies[j])
    decreases i
  {
    if exists j :: 0 <= j < i && Answered(replies[j]) {
      var j :| 0 <= j < i && Answered(replies[j]);
      EarliestAnswer(replies, j);
    }
  }

  /** An exception, then an empty response, then text: the stripped text, after
      one pause of one second. */
  lemma RetriedUntilText(e: string, t: string, replies: seq<Reply>)
    requires |replies| >= 3 && replies[0] == Raised(e) && replies[1] == Returned("")
    requires replies[2] == Returned(t) && t != ""
    ensures Summarize(replies, 3) == Summary(Strip(t), 3, [1])
  {
    assert !Answered(replies[0]) && !Answered(replies[1]) && Answered(replies[2]);
    assert Pauses(replies, 3, 2, 3) == [];
    assert Pauses(replies, 3, 1, 3) == [];
  }

  /** Three exceptions: two pauses, then the last error in the placeholder. */
  lemma ThreeExceptions(e0: string, e1: string, e2: string, replies: seq<Reply>)
    requires |replies| >= 3 && replies[0] == Raised(e0) && replies[1] == Raised(e1) && replies[2] == Raised(e2)
    ensures Summarize(replies, 3) == Summary(ErrorPlaceholder(e2), 3, [1, 2])
  {
    assert !Answered(replies[0]) && !Answered(replies[1]) && !Answered(replies[2]);
    assert Pauses(replies, 3, 2, 3) == [];
    assert Pow2(1) == 2;
  }

  /** The loop of generate_summary with the API call replaced by `replies`. */
  method GenerateSummary(content: string, template: Template, retryCount: int, replies: seq<Reply>)
    returns (prompt: string, summary: string, waits: seq<nat>)
    requires retryCount <= |replies|
    ensures prompt == BuildPrompt(template, content)
    ensures summary == Summarize(replies, retryCount).text
    ensures waits == Summarize(replies, retryCount).waits
  {
    prompt := BuildPrompt(template, content);
    waits := [];
    var attempt: nat := 0;
    while attempt < retryCount
      invariant retryCount > 0 ==> attempt <= retryCount
      invariant retryCount <= 0 ==> attempt == 0
      invariant var r := SummarizeFrom(replies, retryCount, attempt);
                SummarizeFrom(replies, retryCount, 0) == Summary(r.text, r.attempts, waits + r.waits)
    {
      var reply := replies[attempt];
      if reply.Returned? {
        if reply.text != "" {
          summary := Strip(reply.text);
          return;
        }
      } else if attempt < retryCount - 1 {
        ghost var r := SummarizeFrom(replies, retryCount, attempt + 1);
        assert waits + ([Pow2(attempt)] + r.waits) == (waits + [Pow2(attempt)]) + r.waits;
        waits := waits + [Pow2(attempt)];
      } else {
        summary := ErrorPlaceholder(reply.error);
        return;
      }
      attempt := attempt + 1;
    }
    summary := UnknownPlaceholder;
  }

  // ---------------------------------------------------------------------------
  // The batch (run)
  // ---------------------------------------------------------------------------

  /** Every source carries a reply for each of the attempts generate_summary makes. */
  predicate Supplied(docs: seq<Document>) {
    forall i :: 0 <= i < |docs| ==> DefaultRetries <= |docs[i].replies|
  }

  predicate SlotSupplied(slot: Slot) {
    (slot.0.Some? ==> DefaultRetries <= |slot.0.value.replies|)
    && (slot.1.Some? ==> DefaultRetries <= |slot.1.value.replies|)
  }

  predicate SlotsSupplied(pairs: seq<Slot>) {
    forall k :: 0 <= k < |pairs| ==> SlotSupplied(pairs[k])
  }

  /** What the batch does with one subject's source of a slot: nothing without a
      source, a failure when the text is empty, otherwise a summary saved under
      the day's file name and an index reference to it. */
  datatype SourceResult = NoSource | EmptyText | Summarized(ref: SourceRef, summary: string)

  function Processed(doc: Option<Document>, day: int, subject: Subject): SourceResult
    requires doc.Some? ==> DefaultRetries <= |doc.value.replies|
  {
    if doc.None? then NoSource
    else if doc.value.text == "" then EmptyText
    else
      var ref := SourceRef(doc.value.name, SummaryFileName(day, subject), ExtractDate(doc.value.name).1);
      Summarized(ref, Summarize(doc.value.replies, DefaultRetries).text)
  }

  function RefOf(r: SourceResult): Option<SourceRef> {
    if r.Summarized? then Some(r.ref) else None
  }

  /** The `day_info` record of slot `slot` at day `day`. */
  function EntryFor(day: int, slot: Slot): DayEntry
    requires SlotSupplied(slot)
  {
    DayEntry(day, RefOf(Processed(slot.0, day, Pharmacology)), RefOf(Processed(slot.1, day, Anatomy)))
  }

  /** file_info after the loop: one entry per slot, in slot order. */
  function Entries(pairs: seq<Slot>): (r: seq<DayEntry>)
    requires SlotsSupplied(pairs)
    ensures |r| == |pairs|
    ensures forall k :: 0 <= k < |pairs| ==> r[k] == EntryFor(k + 1, pairs[k])
  {
    if pairs == [] then []
    else
      var init := pairs[..|pairs| - 1];
      InitSupplied(pairs);
      var r := Entries(init) + [EntryFor(|pairs|, pairs[|pairs| - 1])];
      assert forall k :: 0 <= k < |init| ==> r[k] == Entries(init)[k];
      r
  }

  /** The slots before the last one are supplied too. */
  lemma InitSupplied(pairs: seq<Slot>)
    requires SlotsSupplied(pairs) && pairs != []
    ensures SlotsSupplied(pairs[..|pairs| - 1])
    ensures forall k :: 0 <= k < |pairs| - 1 ==> pairs[..|pairs| - 1][k] == pairs[k]
  {
  }

  function Save(files: map<string, string>, r: SourceResult): map<string, string> {
    if r.Summarized? then files[r.ref.summary := r.summary] else files
  }

  /** The contents of data/summaries the loop writes, by file name. */
  function Written(pairs: seq<Slot>): map<string, string>
    requires SlotsSupplied(pairs)
  {
    if pairs == [] then map[]
    else
      var day := |pairs|;
      var slot := pairs[|pairs| - 1];
      Save(Save(Written(pairs[..|pairs| - 1]), Processed(slot.0, day, Pharmacology)), Processed(slot.1, day, Anatomy))
  }

  function Calls(slot: Slot): nat {
    (if slot.0.Some? then 1 else 0) + (if slot.1.Some? then 1 else 0)
  }

  function Successes(slot: Slot): nat {
    (if slot.0.Some? && slot.0.value.text != "" then 1 else 0)
    + (if slot.1.Some? && slot.1.value.text != "" then 1 else 0)
  }

  function Failures(slot: Slot): nat {
    (if slot.0.Some? && slot.0.value.text == "" then 1 else 0)
    + (if slot.1.Some? && slot.1.value.text == "" then 1 else 0)
  }

  /** The sum of `f` over the slots. */
  function SumOver(pairs: seq<Slot>, f: Slot -> nat): nat {
    if pairs == [] then 0 else SumOver(pairs[..|pairs| - 1], f) + f(pairs[|pairs| - 1])
  }

  /** The answer to the confirmation prompt lets the batch go on: `.lower() == 'y'`. */
  predicate Confirmed(answer: string) {
    answer == "y" || answer == "Y"
  }

  /** How the batch ends: no PDFs found, cancelled at the prompt, or the files it
      produced and the counters it reports. */
  datatype Batch =
    | NoPdfs
    | Cancelled
    | Generated(index: Index, progress: Progress, summaries: map<string, string>,
                successCount: nat, failCount: nat, totalCalls: nat)

  function Plan(pharmaDocs: seq<Document>, anatomyDocs: seq<Document>, answer: string, now: string): Batch
    requires Supplied(pharmaDocs) && Supplied(anatomyDocs)
  {
    var pairs := Pairing(SortByDate(pharmaDocs), SortByDate(anatomyDocs));
    PairsSupplied(pharmaDocs, anatomyDocs);
    if pairs == [] then NoPdfs
    else if !Confirmed(answer) then Cancelled
    else
      var entries := Entries(pairs);
      Generated(Index(|entries|, now + "Z", entries), InitialProgress(|pairs|), Written(pairs),
                SumOver(pairs, Successes), SumOver(pairs, Failures), SumOver(pairs, Calls))
  }

  lemma SortKeepsSupply(docs: seq<Document>)
    requires Supplied(docs)
    ensures Supplied(SortByDate(docs))
  {
    SortByCorrect(Key, docs);
    var r := SortByDate(docs);
    forall i | 0 <= i < |r| ensures DefaultRetries <= |r[i].replies| {
      assert r[i] in multiset(docs);
    }
  }

  lemma PairsSupplied(pharmaDocs: seq<Document>, anatomyDocs: seq<Document>)
    requires Supplied(pharmaDocs) && Supplied(anatomyDocs)
    ensures SlotsSupplied(Pairing(SortByDate(pharmaDocs), SortByDate(anatomyDocs)))
  {
    SortKeepsSupply(pharmaDocs);
    SortKeepsSupply(anatomyDocs);
  }

  /** One subject of one slot, as the body of the batch loop handles it. */
  method ProcessSource(doc: Option<Document>, day: int, subject: Subject, template: Template)
    returns (r: SourceResult)
    requires doc.Some? ==> DefaultRetries <= |doc.value.replies|
    ensures r == Processed(doc, day, subject)
  {
    if doc.None? {
      return NoSource;
    }
    var d := doc.value;
    var title := ExtractDate(d.name).1;
    var content := d.text;
    if content == "" {
      return EmptyText;
    }
    var prompt, summary, waits := GenerateSummary(content, template, DefaultRetries, d.replies);
    r := Summarized(SourceRef(d.name, SummaryFileName(day, subject), title), summary);
  }

  /** What the loop body does with the result of one source: save a summary and
      count it as a success, or count an empty text as a failure. */
  method Tally(summaries: map<string, string>, successCount: nat, failCount: nat, r: SourceResult)
    returns (summaries': map<string, string>, successCount': nat, failCount': nat)
    ensures summaries' == Save(summaries, r)
    ensures successCount' == successCount + (if r.Summarized? then 1 else 0)
    ensures failCount' == failCount + (if r.EmptyText? then 1 else 0)
  {
    summaries', successCount', failCount' := summaries, successCount, failCount;
    if r.Summarized? {
      summaries' := summaries[r.ref.summary := r.summary];
      successCount' := successCount + 1;
    } else if r.EmptyText? {
      failCount' := failCount + 1;
    }
  }

  /** The loop of run over the day slots: it builds `file_info`, saves the
      summaries and counts successes and failures. */
  method ProcessSlots(pairs: seq<Slot>, pharmacologyPrompt: Template, anatomyPrompt: Template)
    returns (fileInfo: seq<DayEntry>, summaries: map<string, string>, successCount: nat, failCount: nat)
    requires SlotsSupplied(pairs)
    ensures fileInfo == Entries(pairs) && summaries == Written(pairs)
    ensures successCount == SumOver(pairs, Successes) && failCount == SumOver(pairs, Failures)
  {
    fileInfo, summaries, successCount, failCount := [], map[], 0, 0;
    for k := 0 to |pairs|
      invariant SlotsSupplied(pairs[..k])
      invariant fileInfo == Entries(pairs[..k])
      invariant summaries == Written(pairs[..k])
      invariant successCount == SumOver(pairs[..k], Successes)
      invariant failCount == SumOver(pairs[..k], Failures)
    {
      WrittenStep(pairs, k);
      EntriesStep(pairs, k);
      SumOverStep(pairs, k, Successes);
      SumOverStep(pairs, k, Failures);
      SlotCounts(pairs[k], k + 1);
      var day := k + 1;
      var pharma := ProcessSource(pairs[k].0, day, Pharmacology, pharmacologyPrompt);
      summaries, successCount, failCount := Tally(summaries, successCount, failCount, pharma);
      var anatomy := ProcessSource(pairs[k].1, day, Anatomy, anatomyPrompt);
      summaries, successCount, failCount := Tally(summaries, successCount, failCount, anatomy);
      fileInfo := fileInfo + [DayEntry(day, RefOf(pharma), RefOf(anatomy))];
      assert fileInfo == Entries(pairs[..k]) + [EntryFor(k + 1, pairs[k])];
    }
    assert pairs[..|pairs|] == pairs;
  }

  /** run: scan, stop without PDFs or without confirmation, then summarise every
      slot, and write index.json and the initial progress.json. */
  method Run(pharmaDocs: seq<Document>, anatomyDocs: seq<Document>, answer: string, now: string,
             pharmacologyPrompt: Template, anatomyPrompt: Template) returns (r: Batch)
    requires Supplied(pharmaDocs) && Supplied(anatomyDocs)
    ensures r == Plan(pharmaDocs, anatomyDocs, answer, now)
  {
    var pairs := ScanPdfFiles(pharmaDocs, anatomyDocs);
    PairsSupplied(pharmaDocs, anatomyDocs);
    if pairs == [] {
      return NoPdfs;
    }
    if !Confirmed(answer) {
      return Cancelled;
    }
    var totalCalls := SumOver(pairs, Calls);
    var fileInfo, summaries, successCount, failCount := ProcessSlots(pairs, pharmacologyPrompt, anatomyPrompt);
    r := Generated(Index(|fileInfo|, now + "Z", fileInfo), InitialProgress(|pairs|), summaries,
                   successCount, failCount, totalCalls);
  }

  /** One more slot of the loop: its two results saved on top of the earlier ones. */
  lemma WrittenStep(pairs: seq<Slot>, k: int)
    requires SlotsSupplied(pairs) && 0 <= k < |pairs|
    ensures SlotsSupplied(pairs[..k]) && SlotsSupplied(pairs[..k + 1])
    ensures Written(pairs[..k + 1]) ==
              Save(Save(Written(pairs[..k]), Processed(pairs[k].0, k + 1, Pharmacology)),
                   Processed(pairs[k].1, k + 1, Anatomy))
  {
    var done := pairs[..k + 1];
    assert done[..k] == pairs[..k] && done[k] == pairs[k];
    assert SlotSupplied(pairs[k]);
  }

  /** The counters and the index entry of one slot, from the results of its two sources. */
  lemma SlotCounts(slot: Slot, day: int)
    requires SlotSupplied(slot)
    ensures var p, a := Processed(slot.0, day, Pharmacology), Processed(slot.1, day, Anatomy);
            && Successes(slot) == (if p.Summarized? then 1 else 0) + (if a.Summarized? then 1 else 0)
            && Failures(slot) == (if p.EmptyText? then 1 else 0) + (if a.EmptyText? then 1 else 0)
            && EntryFor(day, slot) == DayEntry(day, RefOf(p), RefOf(a))
  {
  }

  lemma EntriesStep(pairs: seq<Slot>, k: int)
    requires SlotsSupplied(pairs) && 0 <= k < |pairs|
    ensures SlotsSupplied(pairs[..k]) && SlotsSupplied(pairs[..k + 1])
    ensures Entries(pairs[..k + 1]) == Entries(pairs[..k]) + [EntryFor(k + 1, pairs[k])]
  {
    var done := pairs[..k + 1];
    assert done[..k] == pairs[..k] && done[k] == pairs[k];
    assert SlotSupplied(pairs[k]);
  }

  lemma SumOverStep(pairs: seq<Slot>, k: int, f: Slot -> nat)
    requires 0 <= k < |pairs|
    ensures SumOver(pairs[..k + 1], f) == SumOver(pairs[..k], f) + f(pairs[k])
  {
    var done := pairs[..k + 1];
    assert done[..k] == pairs[..k] && done[k] == pairs[k];
  }

  // ---------------------------------------------------------------------------
  // What the batch guarantees
  // ---------------------------------------------------------------------------

  lemma {:induction false} SumOverAppend(pairs: seq<Slot>, f: Slot -> nat, g: Slot -> nat, h: Slot -> nat)
    requires forall slot :: f(slot) + g(slot) == h(slot)
    ensures SumOver(pairs, f) + SumOver(pairs, g) == SumOver(pairs, h)
  {
    if pairs != [] {
      SumOverAppend(pairs[..|pairs| - 1], f, g, h);
    }
  }

  lemma {:induction false} SumOverCons(slot: Slot, pairs: seq<Slot>, f: Slot -> nat)
    ensures SumOver([slot] + pairs, f) == f(slot) + SumOver(pairs, f)
    decreases |pairs|
  {
    if pairs != [] {
      var all := [slot] + pairs;
      assert all[..|all| - 1] == [slot] + pairs[..|pairs| - 1];
      SumOverCons(slot, pairs[..|pairs| - 1], f);
    }
  }

  /** Each source costs one call. */
  lemma {:induction false} CallsCountSources(ps: seq<Document>, an: seq<Document>)
    ensures SumOver(Pairing(ps, an), Calls) == |ps| + |an|
    decreases |ps| + |an|
  {
    if ps != [] || an != [] {
      var t := Pairing(Rest(ps), Rest(an));
      assert Pairing(ps, an) == [(At(ps, 0), At(an, 0))] + t;
      SumOverCons((At(ps, 0), At(an, 0)), t, Calls);
      CallsCountSources(Rest(ps), Rest(an));
    }
  }

  /** The reported counters: every call is a success or a failure, and there is
      one call per source PDF. The index and the progress record are sized to
      the slots, and the progress record starts at day 1 with nothing sent. */
  lemma GeneratedCounts(pharmaDocs: seq<Document>, anatomyDocs: seq<Document>, answer: string, now: string)
    requires Supplied(pharmaDocs) && Supplied(anatomyDocs)
    requires Plan(pharmaDocs, anatomyDocs, answer, now).Generated?
    ensures var b := Plan(pharmaDocs, anatomyDocs, answer, now);
            && b.successCount + b.failCount == b.totalCalls
            && b.totalCalls == |pharmaDocs| + |anatomyDocs|
            && b.index.totalDays == |b.index.files| == b.progress.totalDays
            && b.progress.totalDays == (if |pharmaDocs| >= |anatomyDocs| then |pharmaDocs| else |anatomyDocs|)
            && b.progress == InitialProgress(b.index.totalDays)
  {
    var pairs := Pairing(SortByDate(pharmaDocs), SortByDate(anatomyDocs));
    SumOverAppend(pairs, Successes, Failures, Calls);
    CallsCountSources(SortByDate(pharmaDocs), SortByDate(anatomyDocs));
  }

  /** The files of a finished batch are those of its day slots. */
  lemma PlanFiles(pharmaDocs: seq<Document>, anatomyDocs: seq<Document>, answer: string, now: string)
    requires Supplied(pharmaDocs) && Supplied(anatomyDocs)
    requires Plan(pharmaDocs, anatomyDocs, answer, now).Generated?
    ensures var pairs := Pairing(SortByDate(pharmaDocs), SortByDate(anatomyDocs));
            var b := Plan(pharmaDocs, anatomyDocs, answer, now);
            && SlotsSupplied(pairs)
            && b.index.files == Entries(pairs)
            && b.index.totalDays == |pairs|
            && b.summaries == Written(pairs)
  {
    PairsSupplied(pharmaDocs, anatomyDocs);
  }

  /** The batch asks for confirmation only after finding at least one PDF, and
      produces nothing unless the answer is yes. */
  lemma BatchOutcomes(pharmaDocs: seq<Document>, anatomyDocs: seq<Document>, answer: string, now: string)
    requires Supplied(pharmaDocs) && Supplied(anatomyDocs)
    ensures Plan(pharmaDocs, anatomyDocs, answer, now).NoPdfs? <==> pharmaDocs == [] && anatomyDocs == []
    ensures Plan(pharmaDocs, anatomyDocs, answer, now).Generated? <==>
              (pharmaDocs != [] || anatomyDocs != []) && Confirmed(answer)
  {
  }

  /** Entry `k` of the index is day `k + 1` and references a subject exactly when
      that slot has a source of it with text; the reference names the source,
      its title and the summary file of that day and subject. */
  lemma IndexEntries(pairs: seq<Slot>, k: int, subject: Subject)
    requires SlotsSupplied(pairs) && 0 <= k < |pairs|
    ensures var e := Entries(pairs)[k];
            var doc := Source(pairs[k], subject);
            && e.day == k + 1
            && (e.Ref(subject).Some? <==> doc.Some? && doc.value.text != "")
            && (e.Ref(subject).Some? ==>
                  e.Ref(subject).value == SourceRef(doc.value.name, SummaryFileName(k + 1, subject),
                                                    ExtractDate(doc.value.name).1))
  {
    assert SlotSupplied(pairs[k]);
  }

  /** Saving a result leaves every other file name as it was. */
  lemma SaveElsewhere(files: map<string, string>, r: SourceResult, name: string)
    requires r.Summarized? ==> r.ref.summary != name
    ensures (name in Save(files, r)) == (name in files)
    ensures name in files ==> Save(files, r)[name] == files[name]
  {
  }

  /** The two saves of one slot leave the files of other slots as they were. */
  lemma SlotSavesElsewhere(files: map<string, string>, p: SourceResult, a: SourceResult, name: string)
    requires p.Summarized? ==> p.ref.summary != name
    requires a.Summarized? ==> a.ref.summary != name
    ensures (name in Save(Save(files, p), a)) == (name in files)
    ensures name in files ==> Save(Save(files, p), a)[name] == files[name]
  {
    SaveElsewhere(files, p, name);
    SaveElsewhere(Save(files, p), a, name);
  }

  /** The two saves of one slot, on files that hold nothing of that slot yet. */
  lemma SlotSavesOwnFiles(files: map<string, string>, p: SourceResult, a: SourceResult, pName: string, aName: string)
    requires pName != aName && pName !in files && aName !in files
    requires p.Summarized? ==> p.ref.summary == pName
    requires a.Summarized? ==> a.ref.summary == aName
    ensures (pName in Save(Save(files, p), a)) == p.Summarized?
    ensures p.Summarized? ==> Save(Save(files, p), a)[pName] == p.summary
    ensures (aName in Save(Save(files, p), a)) == a.Summarized?
    ensures a.Summarized? ==> Save(Save(files, p), a)[aName] == a.summary
  {
  }

  /** The file of day `k + 1` and `subject` is written exactly when that source
      was summarised, and it holds that summary. */
  lemma {:induction false} WrittenFiles(pairs: seq<Slot>, k: int, subject: Subject)
    requires SlotsSupplied(pairs) && 0 <= k < |pairs|
    ensures var name := SummaryFileName(k + 1, subject);
            var r := Processed(Source(pairs[k], subject), k + 1, subject);
            && (name in Written(pairs) <==> r.Summarized?)
            && (name in Written(pairs) ==> Written(pairs)[name] == r.summary)
    decreases |pairs|
  {
    var n := |pairs|;
    if k < n - 1 {
      var init := pairs[..n - 1];
      assert init[k] == pairs[k];
      WrittenFilesOfEarlierSlot(pairs, k, subject);
      WrittenFiles(init, k, subject);
      var name := SummaryFileName(k + 1, subject);
      var r := Processed(Source(pairs[k], subject), k + 1, subject);
      assert Processed(Source(init[k], subject), k + 1, subject) == r;
      assert name in Written(init) <==> r.Summarized?;
    } else {
      WrittenFilesOfLastSlot(pairs, subject);
    }
  }

  /** The last slot's saves leave the files of the earlier slots as they were. */
  lemma {:induction false} WrittenFilesOfEarlierSlot(pairs: seq<Slot>, k: int, subject: Subject)
    requires SlotsSupplied(pairs) && 0 <= k < |pairs| - 1
    ensures SlotsSupplied(pairs[..|pairs| - 1])
    ensures var name := SummaryFileName(k + 1, subject);
            var init := Written(pairs[..|pairs| - 1]);
            && (name in Written(pairs) <==> name in init)
            && (name in init ==> Written(pairs)[name] == init[name])
  {
    var n := |pairs|;
    WrittenStep(pairs, n - 1);
    assert pairs[..n] == pairs;
    var init := pairs[..n - 1];
    var name := SummaryFileName(k + 1, subject);
    var p := Processed(pairs[n - 1].0, n, Pharmacology);
    var a := Processed(pairs[n - 1].1, n, Anatomy);
    assert Written(pairs) == Save(Save(Written(init), p), a);
    SummaryFileNamesDiffer(n, Pharmacology, k + 1, subject);
    SummaryFileNamesDiffer(n, Anatomy, k + 1, subject);
    SlotSavesElsewhere(Written(init), p, a, name);
  }

  /** The last slot's saves write its own two files, when it has those sources. */
  lemma {:induction false} WrittenFilesOfLastSlot(pairs: seq<Slot>, subject: Subject)
    requires SlotsSupplied(pairs) && pairs != []
    ensures var n := |pairs|;
            var name := SummaryFileName(n, subject);
            var r := Processed(Source(pairs[n - 1], subject), n, subject);
            && (name in Written(pairs) <==> r.Summarized?)
            && (name in Written(pairs) ==> Written(pairs)[name] == r.summary)
  {
    var n := |pairs|;
    WrittenStep(pairs, n - 1);
    assert pairs[..n] == pairs;
    var init := pairs[..n - 1];
    var p := Processed(pairs[n - 1].0, n, Pharmacology);
    var a := Processed(pairs[n - 1].1, n, Anatomy);
    assert Written(pairs) == Save(Save(Written(init), p), a);
    var pName := SummaryFileName(n, Pharmacology);
    var aName := SummaryFileName(n, Anatomy);
    NoFilesOfLaterDays(init, n, Pharmacology);
    NoFilesOfLaterDays(init, n, Anatomy);
    SummaryFileNamesDiffer(n, Pharmacology, n, Anatomy);
    SlotSavesOwnFiles(Written(init), p, a, pName, aName);
    match subject
    case Pharmacology => assert Source(pairs[n - 1], subject) == pairs[n - 1].0;
    case Anatomy => assert Source(pairs[n - 1], subject) == pairs[n - 1].1;
  }

  /** The loop has written nothing of a day it has not reached. */
  lemma NoFilesOfLaterDays(pairs: seq<Slot>, day: int, subject: Subject)
    requires SlotsSupplied(pairs) && day > |pairs|
    ensures SummaryFileName(day, subject) !in Written(pairs)
  {
    var name := SummaryFileName(day, subject);
    if name in Written(pairs) {
      WrittenNamesAreSlots(pairs, name);
      var d, s :| 1 <= d <= |pairs| && name == SummaryFileName(d, s);
      SummaryFileNamesDiffer(d, s, day, subject);
    }
  }

  /** The summary files written are exactly the ones the index references, and
      each holds the summary generated for that source. */
  lemma WrittenMatchesIndex(pairs: seq<Slot>, k: int, subject: Subject)
    requires SlotsSupplied(pairs) && 0 <= k < |pairs|
    ensures var name := SummaryFileName(k + 1, subject);
            var doc := Source(pairs[k], subject);
            && (name in Written(pairs) <==> Entries(pairs)[k].Ref(subject).Some?)
            && (name in Written(pairs) ==>
                  && Entries(pairs)[k].Ref(subject).value.summary == name
                  && Written(pairs)[name] == Summarize(doc.value.replies, DefaultRetries).text)
  {
    WrittenFiles(pairs, k, subject);
    IndexEntries(pairs, k, subject);
  }

  /** Every summary file written belongs to some slot and subject. */
  lemma {:induction false} WrittenNamesAreSlots(pairs: seq<Slot>, name: string)
    requires SlotsSupplied(pairs) && name in Written(pairs)
    ensures exists day, subject :: 1 <= day <= |pairs| && name == SummaryFileName(day, subject)
    decreases |pairs|
  {
    var n := |pairs|;
    var init := pairs[..n - 1];
    WrittenStep(pairs, n - 1);
    assert pairs[..n] == pairs;
    var p := Processed(pairs[n - 1].0, n, Pharmacology);
    var a := Processed(pairs[n - 1].1, n, Anatomy);
    SavedNames(Written(init), p, a, name);
    if name in Written(init) {
      WrittenNamesAreSlots(init, name);
    } else if p.Summarized? && name == p.ref.summary {
      assert name == SummaryFileName(n, Pharmacology);
    } else {
      assert name == SummaryFileName(n, Anatomy);
    }
  }

  /** A name the two saves of a slot hold was there before or is one of theirs. */
  lemma SavedNames(files: map<string, string>, p: SourceResult, a: SourceResult, name: string)
    requires name in Save(Save(files, p), a)
    ensures || name in files
            || (p.Summarized? && name == p.ref.summary)
            || (a.Summarized? && name == a.ref.summary)
  {
  }
}
