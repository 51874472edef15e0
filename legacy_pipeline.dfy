/**
 * The older standalone pipeline, `feedme/app.py` `main`. It runs the same
 * steps as `Pipeline.Run` with these differences: there is no force flag;
 * the feed timestamp is parsed outside any `try`, so a missing or unparsable
 * `updated` aborts the run after the namespace directory was created; the
 * entries go through `parse_posts` before rendering; digests are named by
 * day; the contacts are always parsed and one email is always sent, even to
 * an empty recipient list. `Orchestrator.Workspace.LegacyRun` runs it
 * imperatively and is proved to agree with `Run`.
 */
module LegacyPipeline {
  import opened Wrappers
  import opened Text
  import opened Posts
  import opened Contacts
  import opened FileSystem
  import opened Watermark
  import opened DigestNames
  import opened Feeds

  /** Everything a run depends on besides the configuration and the disk. */
  datatype Inputs = Inputs(
    fetch: FetchResult,
    parseUpdated: string -> Option<int>,
    templateExists: bool,
    render: (string, seq<Post>) -> string,
    clock: LocalTime,
    contacts: Option<string>,        // the text of the contacts file; None if it cannot be opened
    client: MailClient,              // the command line only accepts "google" or "smtp"
    trackerFault: WriteFault)

  function DigestPath(ns: Path, clock: LocalTime): Path {
    ns + [DayStamp(clock) + ".html"]
  }

  /** The freshness check of this version: only the watermark can block the run. */
  predicate Skip(feedDt: int, trackerDt: Option<int>) {
    trackerDt.Some? && trackerDt.value >= feedDt
  }

  /** `main(...)` of the older pipeline. */
  function Run(d: Disk, cfg: Config, w: Inputs): RunResult {
    match w.fetch
    case Failed => RunResult(FetchFailed, d)
    case Fetched(feed) =>
      if |feed.entries| == 0 then RunResult(NoEntries, d)
      else
        var ns := Namespace(cfg);
        var d1 := d.(dirs := EnsureDir(d.dirs, ns));
        match FeedDatetime(feed, w.parseUpdated)
        case None => RunResult(TimestampInvalid, d1)
        case Some(feedDt) =>
          if Skip(feedDt, GetTrackerDatetime(d1, ns)) then RunResult(AlreadyProcessed, d1)
          else match PostsOf(feed.entries)
            case None => RunResult(EntryFieldMissing, d1)
            case Some(posts) =>
              if !w.templateExists then RunResult(TemplateMissing, d1)
              else
                var html := w.render(DayStamp(w.clock), posts);
                var d2 := WriteFile(d1, DigestPath(ns, w.clock), html);
                Notify(d2, cfg, w, html, ns, feedDt)
  }

  /** The email step, which always runs, and the tracker update after it. */
  function Notify(d: Disk, cfg: Config, w: Inputs, html: string, ns: Path, feedDt: int): RunResult {
    match w.contacts
    case None => RunResult(ContactsUnreadable, d)
    case Some(text) =>
      var message := Email(cfg, ContactsOf(ReadLines(text)), html);
      if !w.client.delivers then RunResult(DeliveryFailed, d)
      else RunResult(Done, SetTrackerDatetime(d.(outbox := d.outbox + [message]), ns, feedDt, w.trackerFault))
  }

  predicate Proceeds(w: Inputs) {
    w.fetch.Fetched? && |w.fetch.feed.entries| > 0
  }

  function FeedDt(w: Inputs): Option<int>
    requires w.fetch.Fetched?
  {
    FeedDatetime(w.fetch.feed, w.parseUpdated)
  }

  /** The run gets through the timestamp, freshness, entry and template steps and renders. */
  predicate Renders(d: Disk, cfg: Config, w: Inputs) {
    && Proceeds(w)
    && FeedDt(w).Some?
    && !Skip(FeedDt(w).value, GetTrackerDatetime(d, Namespace(cfg)))
    && PostsOf(w.fetch.feed.entries).Some?
    && w.templateExists
  }

  /** The digest of a run that renders. */
  function Html(w: Inputs): string
    requires Proceeds(w) && PostsOf(w.fetch.feed.entries).Some?
  {
    w.render(DayStamp(w.clock), PostsOf(w.fetch.feed.entries).value)
  }

  /** What the steps after the digest write change, given the namespace directory exists. */
  lemma NotifyFacts(d: Disk, cfg: Config, w: Inputs, html: string, ns: Path, feedDt: int)
    requires ns in d.dirs
    ensures var r := Notify(d, cfg, w, html, ns, feedDt);
            && r.disk.dirs == d.dirs
            && r.outcome in {ContactsUnreadable, DeliveryFailed, Done}
            && (r.outcome == Done <==> w.contacts.Some? && w.client.delivers)
            && (r.outcome == Done ==>
                  r.disk.outbox == d.outbox + [Email(cfg, ContactsOf(ReadLines(w.contacts.value)), html)])
            && (r.outcome != Done ==> r.disk.outbox == d.outbox)
            && (forall q :: q != TrackerPath(ns) ==> SameFileAt(d, r.disk, q))
            && (!SameFileAt(d, r.disk, TrackerPath(ns)) ==> r.outcome == Done)
            && (r.outcome == Done && w.trackerFault.NoFault? ==>
                  GetTrackerDatetime(r.disk, ns) == Some(feedDt))
            && (Valid(d) ==> Valid(r.disk))
  {
    if w.contacts.Some? && w.client.delivers {
      var sent := d.(outbox := d.outbox + [Email(cfg, ContactsOf(ReadLines(w.contacts.value)), html)]);
      if w.trackerFault.NoFault? {
        SetThenGet(sent, ns, feedDt);
      }
    }
  }

  /** The disk right after the digest write of a run that renders. */
  function Written(d: Disk, cfg: Config, w: Inputs): Disk
    requires Renders(d, cfg, w)
  {
    var ns := Namespace(cfg);
    WriteFile(d.(dirs := EnsureDir(d.dirs, ns)), DigestPath(ns, w.clock), Html(w))
  }

  /** How the run ends when it does not render, and what it leaves behind then. */
  lemma ExitFacts(d: Disk, cfg: Config, w: Inputs)
    requires Proceeds(w)
    ensures var r := Run(d, cfg, w);
            var ns := Namespace(cfg);
            && (r.outcome == TimestampInvalid <==> FeedDt(w).None?)
            && (r.outcome == AlreadyProcessed <==>
                  FeedDt(w).Some? && Skip(FeedDt(w).value, GetTrackerDatetime(d, ns)))
            && (r.outcome == EntryFieldMissing <==>
                  FeedDt(w).Some? && !Skip(FeedDt(w).value, GetTrackerDatetime(d, ns))
                  && PostsOf(w.fetch.feed.entries).None?)
            && (r.outcome == TemplateMissing <==>
                  FeedDt(w).Some? && !Skip(FeedDt(w).value, GetTrackerDatetime(d, ns))
                  && PostsOf(w.fetch.feed.entries).Some? && !w.templateExists)
            && (!Renders(d, cfg, w) ==> r.disk == d.(dirs := EnsureDir(d.dirs, ns)))
            && (Renders(d, cfg, w) ==>
                  r == Notify(Written(d, cfg, w), cfg, w, Html(w), ns, FeedDt(w).value))
  {
  }

  /** How a run that gets past the fetch ends, and the directories it leaves. */
  lemma ProceedOutcomes(d: Disk, cfg: Config, w: Inputs)
    requires Proceeds(w)
    ensures var r := Run(d, cfg, w);
            var ns := Namespace(cfg);
            && r.disk.dirs == EnsureDir(d.dirs, ns)
            && (r.outcome == TimestampInvalid <==> FeedDt(w).None?)
            && (r.outcome == AlreadyProcessed <==>
                  FeedDt(w).Some? && Skip(FeedDt(w).value, GetTrackerDatetime(d, ns)))
            && (r.outcome == EntryFieldMissing <==>
                  FeedDt(w).Some? && !Skip(FeedDt(w).value, GetTrackerDatetime(d, ns))
                  && PostsOf(w.fetch.feed.entries).None?)
            && (r.outcome == TemplateMissing <==>
                  FeedDt(w).Some? && !Skip(FeedDt(w).value, GetTrackerDatetime(d, ns))
                  && PostsOf(w.fetch.feed.entries).Some? && !w.templateExists)
            && (!Renders(d, cfg, w) ==> r.disk.files == d.files && r.disk.outbox == d.outbox)
            && (Renders(d, cfg, w) <==> r.outcome in {ContactsUnreadable, DeliveryFailed, Done})
            && (Renders(d, cfg, w) ==>
                  (r.outcome == Done <==> w.contacts.Some? && w.client.delivers))
  {
    ExitFacts(d, cfg, w);
    if Renders(d, cfg, w) {
      NotifyFacts(Written(d, cfg, w), cfg, w, Html(w), Namespace(cfg), FeedDt(w).value);
    }
  }

  /** A run that gets past the fetch writes no file but its digest and the TRACKER. */
  lemma ProceedFrame(d: Disk, cfg: Config, w: Inputs)
    requires Proceeds(w)
    ensures var r := Run(d, cfg, w);
            var ns := Namespace(cfg);
            forall q :: q != DigestPath(ns, w.clock) && q != TrackerPath(ns) ==> SameFileAt(d, r.disk, q)
  {
    var ns := Namespace(cfg);
    ExitFacts(d, cfg, w);
    if Renders(d, cfg, w) {
      var written := Written(d, cfg, w);
      NotifyFacts(written, cfg, w, Html(w), ns, FeedDt(w).value);
      var r := Run(d, cfg, w);
      forall q | q != DigestPath(ns, w.clock) && q != TrackerPath(ns)
        ensures SameFileAt(d, r.disk, q)
      {
        assert SameFileAt(d, written, q);
        assert SameFileAt(written, r.disk, q);
      }
    }
  }

  /** A run that renders saves its digest, and nothing later in the run replaces it. */
  lemma ProceedDigest(d: Disk, cfg: Config, w: Inputs)
    requires Renders(d, cfg, w)
    ensures var p := DigestPath(Namespace(cfg), w.clock);
            p in Run(d, cfg, w).disk.files && Run(d, cfg, w).disk.files[p] == Html(w)
  {
    var ns := Namespace(cfg);
    ExitFacts(d, cfg, w);
    var digest := DigestPath(ns, w.clock);
    var written := Written(d, cfg, w);
    assert digest in written.files && written.files[digest] == Html(w);
    NotifyFacts(written, cfg, w, Html(w), ns, FeedDt(w).value);
    HtmlIsNotTracker(ns, DayStamp(w.clock));
    assert SameFileAt(written, Run(d, cfg, w).disk, digest);
  }

  /** The message a run sends and the TRACKER it writes, both only on a completed run. */
  lemma ProceedNotify(d: Disk, cfg: Config, w: Inputs)
    requires Proceeds(w)
    ensures var r := Run(d, cfg, w);
            var ns := Namespace(cfg);
            && (r.outcome == Done ==>
                  r.disk.outbox == d.outbox + [Email(cfg, ContactsOf(ReadLines(w.contacts.value)), Html(w))])
            && (r.outcome != Done ==> r.disk.outbox == d.outbox)
            && (!SameFileAt(d, r.disk, TrackerPath(ns)) ==> r.outcome == Done)
            && (r.outcome == Done && w.trackerFault.NoFault? ==> GetTrackerDatetime(r.disk, ns) == FeedDt(w))
  {
    var ns := Namespace(cfg);
    ExitFacts(d, cfg, w);
    if Renders(d, cfg, w) {
      NotifyFacts(Written(d, cfg, w), cfg, w, Html(w), ns, FeedDt(w).value);
      HtmlIsNotTracker(ns, DayStamp(w.clock));
    }
  }

  /** State the run leaves behind once it gets past the fetch. */
  lemma ProceedFacts(d: Disk, cfg: Config, w: Inputs)
    requires Proceeds(w)
    ensures var r := Run(d, cfg, w);
            var ns := Namespace(cfg);
            && r.disk.dirs == EnsureDir(d.dirs, ns)
            && (r.outcome == TimestampInvalid <==> FeedDt(w).None?)
            && (r.outcome == AlreadyProcessed <==>
                  FeedDt(w).Some? && Skip(FeedDt(w).value, GetTrackerDatetime(d, ns)))
            && (r.outcome == EntryFieldMissing <==>
                  FeedDt(w).Some? && !Skip(FeedDt(w).value, GetTrackerDatetime(d, ns))
                  && PostsOf(w.fetch.feed.entries).None?)
            && (r.outcome == TemplateMissing <==>
                  FeedDt(w).Some? && !Skip(FeedDt(w).value, GetTrackerDatetime(d, ns))
                  && PostsOf(w.fetch.feed.entries).Some? && !w.templateExists)
            && (!Renders(d, cfg, w) ==> r.disk.files == d.files && r.disk.outbox == d.outbox)
            && (Renders(d, cfg, w) <==> r.outcome in {ContactsUnreadable, DeliveryFailed, Done})
            && (forall q :: q != DigestPath(ns, w.clock) && q != TrackerPath(ns) ==> SameFileAt(d, r.disk, q))
            && (Renders(d, cfg, w) ==>
                  DigestPath(ns, w.clock) in r.disk.files && r.disk.files[DigestPath(ns, w.clock)] == Html(w))
            && (Renders(d, cfg, w) ==>
                  (r.outcome == Done <==> w.contacts.Some? && w.client.delivers))
            && (r.outcome == Done ==>
                  r.disk.outbox == d.outbox + [Email(cfg, ContactsOf(ReadLines(w.contacts.value)), Html(w))])
            && (r.outcome != Done ==> r.disk.outbox == d.outbox)
            && (!SameFileAt(d, r.disk, TrackerPath(ns)) ==> r.outcome == Done)
            && (r.outcome == Done && w.trackerFault.NoFault? ==> GetTrackerDatetime(r.disk, ns) == FeedDt(w))
            && (Valid(d) ==> Valid(r.disk))
  {
    ProceedOutcomes(d, cfg, w);
    ProceedFrame(d, cfg, w);
    if Renders(d, cfg, w) {
      ProceedDigest(d, cfg, w);
    }
    ProceedNotify(d, cfg, w);
    if Valid(d) {
      RunKeepsValid(d, cfg, w);
    }
  }

  /** A failed fetch or a feed without entries ends the run before `mkdir` and any other effect. */
  lemma EarlyExitsHaveNoEffect(d: Disk, cfg: Config, w: Inputs)
    ensures Run(d, cfg, w).outcome == FetchFailed <==> w.fetch.Failed?
    ensures Run(d, cfg, w).outcome == NoEntries <==> w.fetch.Fetched? && |w.fetch.feed.entries| == 0
    ensures !Proceeds(w) ==> Run(d, cfg, w).disk == d
  {
    if Proceeds(w) {
      ProceedFacts(d, cfg, w);
    }
  }

  /**
   * A missing or unparsable `updated` field aborts the run right after the
   * namespace directory was created; nothing else is written. Every later
   * step therefore sees a known feed timestamp.
   */
  lemma UnparsableStampAborts(d: Disk, cfg: Config, w: Inputs)
    requires Proceeds(w)
    ensures Run(d, cfg, w).outcome == TimestampInvalid <==> FeedDt(w).None?
    ensures FeedDt(w).None? ==>
              Run(d, cfg, w).disk == d.(dirs := EnsureDir(d.dirs, Namespace(cfg)))
  {
    ProceedFacts(d, cfg, w);
  }

  /**
   * The run is skipped exactly when the watermark is known and not older
   * than the feed; nothing can force it.
   */
  lemma SkipRule(d: Disk, cfg: Config, w: Inputs)
    ensures var ns := Namespace(cfg);
            Run(d, cfg, w).outcome == AlreadyProcessed <==>
              && Proceeds(w) && FeedDt(w).Some?
              && GetTrackerDatetime(d, ns).Some? && GetTrackerDatetime(d, ns).value >= FeedDt(w).value
    ensures Run(d, cfg, w).outcome == AlreadyProcessed ==>
              Run(d, cfg, w).disk == d.(dirs := EnsureDir(d.dirs, Namespace(cfg)))
  {
    if Proceeds(w) {
      ProceedFacts(d, cfg, w);
    }
  }

  /**
   * An entry without a title, author, link or summary makes `parse_posts`
   * raise, before the template is looked up; nothing is written.
   */
  lemma MissingFieldAborts(d: Disk, cfg: Config, w: Inputs)
    requires Proceeds(w) && FeedDt(w).Some?
    requires !Skip(FeedDt(w).value, GetTrackerDatetime(d, Namespace(cfg)))
    requires exists i :: 0 <= i < |w.fetch.feed.entries| && !w.fetch.feed.entries[i].Complete()
    ensures Run(d, cfg, w).outcome == EntryFieldMissing
    ensures Run(d, cfg, w).disk == d.(dirs := EnsureDir(d.dirs, Namespace(cfg)))
  {
    ProceedFacts(d, cfg, w);
  }

  /** A missing template ends the run after `mkdir`, before any digest, email or watermark write. */
  lemma MissingTemplateWritesNothing(d: Disk, cfg: Config, w: Inputs)
    ensures Run(d, cfg, w).outcome == TemplateMissing ==>
              Run(d, cfg, w).disk == d.(dirs := EnsureDir(d.dirs, Namespace(cfg)))
  {
    if Proceeds(w) {
      ProceedFacts(d, cfg, w);
    }
  }

  /**
   * The digest is rendered from exactly `parse_posts` of the entries: one
   * post per entry, in order, each carrying its entry's fields.
   */
  lemma RenderGetsPosts(d: Disk, cfg: Config, w: Inputs)
    requires Renders(d, cfg, w)
    ensures var p := DigestPath(Namespace(cfg), w.clock);
            p in Run(d, cfg, w).disk.files
            && Run(d, cfg, w).disk.files[p] == w.render(DayStamp(w.clock), PostsOf(w.fetch.feed.entries).value)
    ensures var posts := PostsOf(w.fetch.feed.entries).value;
            var entries := w.fetch.feed.entries;
            |posts| == |entries| && forall i :: 0 <= i < |entries| ==> posts[i] == PostOf(entries[i])
  {
    ProceedFacts(d, cfg, w);
  }

  /**
   * Digest names have day resolution: two runs write the same file exactly
   * when they happen on the same day, so a second digest that day replaces
   * the first.
   */
  lemma SameDayOverwrites(d: Disk, cfg: Config, w1: Inputs, w2: Inputs)
    requires w1.clock.WellFormed() && w2.clock.WellFormed()
    requires Renders(d, cfg, w1)
    ensures var ns := Namespace(cfg);
            DigestPath(ns, w1.clock) == DigestPath(ns, w2.clock) <==> w1.clock.SameDay(w2.clock)
    ensures var r1 := Run(d, cfg, w1);
            Renders(r1.disk, cfg, w2) && w1.clock.SameDay(w2.clock) ==>
              Run(r1.disk, cfg, w2).disk.files[DigestPath(Namespace(cfg), w1.clock)] == Html(w2)
  {
    var ns := Namespace(cfg);
    var r1 := Run(d, cfg, w1);
    DayStampIffSameDay(w1.clock, w2.clock);
    if DigestPath(ns, w1.clock) == DigestPath(ns, w2.clock) {
      assert DayStamp(w1.clock) + ".html" == DayStamp(w2.clock) + ".html" by {
        assert DigestPath(ns, w1.clock)[|ns|] == DigestPath(ns, w2.clock)[|ns|];
      }
      DigestNames.SplitConcat(DayStamp(w1.clock), ".html", DayStamp(w2.clock), ".html");
    }
    if Renders(r1.disk, cfg, w2) {
      ProceedFacts(r1.disk, cfg, w2);
    }
  }

  /**
   * Once the digest is saved, the contacts are parsed and one email is
   * sent, even when the contact list is empty and the recipient string is "".
   */
  lemma AlwaysEmails(d: Disk, cfg: Config, w: Inputs)
    requires Renders(d, cfg, w) && w.contacts.Some? && w.client.delivers
    ensures var r := Run(d, cfg, w);
            var contacts := ContactsOf(ReadLines(w.contacts.value));
            && r.outcome == Done
            && r.disk.outbox == d.outbox + [Message(cfg.sender, Join(contacts), cfg.templateName + " Posts", Html(w))]
            && (contacts == [] ==> r.disk.outbox[|d.outbox|].to == "")
  {
    ProceedFacts(d, cfg, w);
  }

  /**
   * The watermark changes only after `send_message` returned, and then
   * (when the write succeeds) reads back as the feed timestamp; a failed
   * send leaves it untouched.
   */
  lemma TrackerAfterSend(d: Disk, cfg: Config, w: Inputs)
    ensures !SameFileAt(d, Run(d, cfg, w).disk, TrackerPath(Namespace(cfg))) ==>
              Run(d, cfg, w).outcome == Done
    ensures Run(d, cfg, w).outcome == Done && w.trackerFault.NoFault? ==>
              GetTrackerDatetime(Run(d, cfg, w).disk, Namespace(cfg)) == FeedDt(w)
  {
    if Proceeds(w) {
      ProceedFacts(d, cfg, w);
    }
  }

  /**
   * Idempotence: after a completed run whose watermark write succeeded, a
   * run on a feed that has not advanced is skipped and changes nothing.
   */
  lemma RepeatRunIsSkipped(d: Disk, cfg: Config, w1: Inputs, w2: Inputs)
    requires Run(d, cfg, w1).outcome == Done && w1.trackerFault.NoFault?
    requires Proceeds(w2) && FeedDt(w2).Some? && FeedDt(w2).value <= FeedDt(w1).value
    ensures var r1 := Run(d, cfg, w1);
            Run(r1.disk, cfg, w2) == RunResult(AlreadyProcessed, r1.disk)
  {
    var r1 := Run(d, cfg, w1);
    ProceedFacts(d, cfg, w1);
    ProceedFacts(r1.disk, cfg, w2);
    EnsureDirIdempotent(d.dirs, Namespace(cfg));
  }

  /** Without a force flag the watermark only moves forward: a completed run writes a later instant. */
  lemma WatermarkAdvances(d: Disk, cfg: Config, w: Inputs)
    requires Run(d, cfg, w).outcome == Done && GetTrackerDatetime(d, Namespace(cfg)).Some?
    ensures GetTrackerDatetime(d, Namespace(cfg)).value < FeedDt(w).value
  {
    ProceedFacts(d, cfg, w);
  }

  /** A run keeps the disk a well-formed tree with every file inside a directory. */
  lemma RunKeepsValid(d: Disk, cfg: Config, w: Inputs)
    requires Valid(d)
    ensures Valid(Run(d, cfg, w).disk)
  {
    if Proceeds(w) {
      ExitFacts(d, cfg, w);
      var ns := Namespace(cfg);
      var d1 := d.(dirs := EnsureDir(d.dirs, ns));
      assert Valid(d1);
      if Renders(d, cfg, w) {
        var digest := DigestPath(ns, w.clock);
        assert digest[..|digest| - 1] == ns;
        assert Valid(Written(d, cfg, w));
        NotifyFacts(Written(d, cfg, w), cfg, w, Html(w), ns, FeedDt(w).value);
      }
    }
  }
}
