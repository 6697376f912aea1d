/** What the sender makes of the generator's output: the progress record the
    generator writes starts the schedule, the sender's lookups find the index
    entries and summary files the generator wrote, and a day slot that lacks one
    subject holds the schedule back for good. */
module Handoff {
  import opened Records
  import Mailer
  import Generator

  /** The progress record of a finished batch is a fresh, consistent schedule
      whose first day is due on any date. */
  lemma GeneratedProgressStartsTheSchedule(pharmaDocs: seq<Generator.Document>, anatomyDocs: seq<Generator.Document>,
                                           answer: string, now: string, today: Date)
    requires Generator.Supplied(pharmaDocs) && Generator.Supplied(anatomyDocs)
    requires Generator.Plan(pharmaDocs, anatomyDocs, answer, now).Generated?
    ensures var b := Generator.Plan(pharmaDocs, anatomyDocs, answer, now);
            && b.progress.totalDays >= 1
            && Mailer.Consistent(b.progress)
            && Mailer.Gate(b.progress, today) == Mailer.Due
  {
    Generator.GeneratedCounts(pharmaDocs, anatomyDocs, answer, now);
  }

  /** get_day_info finds the entry of every day slot in the generated index. */
  lemma EntryFoundByDay(pairs: seq<Generator.Slot>, day: int)
    requires Generator.SlotsSupplied(pairs) && 1 <= day <= |pairs|
    ensures Mailer.GetDayInfo(Generator.Entries(pairs), day) == Some(Generator.Entries(pairs)[day - 1])
  {
    var files := Generator.Entries(pairs);
    forall j | 0 <= j < |files| ensures files[j].day == j + 1 {
      Generator.IndexEntries(pairs, j, Pharmacology);
    }
    var r := Mailer.GetDayInfo(files, day);
    assert files[day - 1].day == day;
    var i :| 0 <= i < |files| && files[i] == r.value && r.value.day == day
             && forall j :: 0 <= j < i ==> files[j].day != day;
    assert i == day - 1;
  }

  /** For every day slot of a batch the sender's lookups find what the generator
      wrote for it: get_day_info finds that day's index entry, and load_summary
      finds a file exactly when the entry references one, under the name the
      entry records, holding the generated summary. With Generator.PlanFiles this
      covers the index and the files of every finished batch. */
  lemma {:induction false} SenderFindsSlot(pairs: seq<Generator.Slot>, day: int, subject: Subject)
    requires Generator.SlotsSupplied(pairs) && 1 <= day <= |pairs|
    ensures var e := Generator.Entries(pairs)[day - 1];
            var doc := Generator.Source(pairs[day - 1], subject);
            var found := Mailer.LoadSummary(Generator.Written(pairs), day, subject);
            && Mailer.GetDayInfo(Generator.Entries(pairs), day) == Some(e)
            && (found.Some? <==> e.Ref(subject).Some?)
            && (e.Ref(subject).Some? ==>
                  && e.Ref(subject).value.summary == SummaryFileName(day, subject)
                  && doc.Some?
                  && found == Some(Generator.Summarize(doc.value.replies, Generator.DefaultRetries).text))
  {
    EntryFoundByDay(pairs, day);
    Generator.IndexEntries(pairs, day - 1, subject);
    Generator.WrittenMatchesIndex(pairs, day - 1, subject);
  }

  /** The subject of the shorter folder and the first day without a PDF of it. */
  function ShorterSubject(pharmaDocs: seq<Generator.Document>, anatomyDocs: seq<Generator.Document>): Subject {
    if |pharmaDocs| < |anatomyDocs| then Pharmacology else Anatomy
  }

  function FirstUncoveredDay(pharmaDocs: seq<Generator.Document>, anatomyDocs: seq<Generator.Document>): int {
    (if |pharmaDocs| < |anatomyDocs| then |pharmaDocs| else |anatomyDocs|) + 1
  }

  /** With folders of different lengths, the day after the shorter list ends is
      a day of the schedule, and the generator wrote no summary of the shorter
      subject for it. */
  lemma UnevenFoldersLeaveAGap(pharmaDocs: seq<Generator.Document>, anatomyDocs: seq<Generator.Document>,
                               answer: string, now: string)
    requires Generator.Supplied(pharmaDocs) && Generator.Supplied(anatomyDocs)
    requires Generator.Plan(pharmaDocs, anatomyDocs, answer, now).Generated?
    requires |pharmaDocs| != |anatomyDocs|
    ensures var b := Generator.Plan(pharmaDocs, anatomyDocs, answer, now);
            var day := FirstUncoveredDay(pharmaDocs, anatomyDocs);
            && 1 <= day <= b.progress.totalDays
            && b.index.files[day - 1].Ref(ShorterSubject(pharmaDocs, anatomyDocs)).None?
            && Mailer.LoadSummary(b.summaries, day, ShorterSubject(pharmaDocs, anatomyDocs)).None?
  {
    var pairs := Generator.Pairing(Generator.SortByDate(pharmaDocs), Generator.SortByDate(anatomyDocs));
    Generator.PairsSupplied(pharmaDocs, anatomyDocs);
    Generator.GeneratedCounts(pharmaDocs, anatomyDocs, answer, now);
    var subject := ShorterSubject(pharmaDocs, anatomyDocs);
    var day := FirstUncoveredDay(pharmaDocs, anatomyDocs);
    assert Generator.Source(pairs[day - 1], subject).None?;
    Generator.IndexEntries(pairs, day - 1, subject);
    Generator.WrittenMatchesIndex(pairs, day - 1, subject);
  }

  /** When the two folders hold different numbers of PDFs, no sequence of runs
      reading the files of batch `b` gets past that gap, and the schedule never
      completes. */
  lemma {:induction false} UnevenFoldersStall(pharmaDocs: seq<Generator.Document>, anatomyDocs: seq<Generator.Document>,
                           answer: string, now: string, b: Generator.Batch, runs: seq<Mailer.Invocation>)
    requires Generator.Supplied(pharmaDocs) && Generator.Supplied(anatomyDocs)
    requires b == Generator.Plan(pharmaDocs, anatomyDocs, answer, now) && b.Generated?
    requires |pharmaDocs| != |anatomyDocs|
    requires Mailer.Scripted(runs)
    requires forall i :: 0 <= i < |runs| ==> runs[i].dir == b.summaries
    ensures Mailer.Replay(b.progress, runs).currentDay <= FirstUncoveredDay(pharmaDocs, anatomyDocs)
    ensures !Mailer.Replay(b.progress, runs).completed
  {
    var day := FirstUncoveredDay(pharmaDocs, anatomyDocs);
    var subject := ShorterSubject(pharmaDocs, anatomyDocs);
    var p := b.progress;
    UnevenFoldersLeaveAGap(pharmaDocs, anatomyDocs, answer, now);
    GeneratedProgressStartsTheSchedule(pharmaDocs, anatomyDocs, answer, now, "");
    assert 1 <= day <= p.totalDays && Mailer.Consistent(p);
    assert Mailer.LoadSummary(b.summaries, day, subject).None?;
    forall i | 0 <= i < |runs| ensures !Mailer.Truthy(Mailer.LoadSummary(runs[i].dir, day, subject)) {
      assert runs[i].dir == b.summaries;
    }
    Mailer.GapBlocksCompletion(p, runs, day, subject);
  }
}
