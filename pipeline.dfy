/**
 * The packaged pipeline, `feedme/__main__.py` `main`, as a function from the
 * state of the world before the run to the outcome and the state after it.
 * `Orchestrator.Workspace.Run` runs the same steps imperatively and is
 * proved to agree with `Run`.
 */
module Pipeline {
  import opened Wrappers
  import opened Text
  import opened Posts
  import opened Contacts
  import opened FileSystem
  import opened Watermark
  import opened DigestNames
  import opened Feeds

  /** Everything a run depends on besides the configuration and the disk. */
  datatype Inputs = Inputs(
    fetch: FetchResult,
    parseUpdated: string -> Option<int>,
    templateExists: bool,
    render: (LocalTime, seq<Entry>) -> string,
    clock: LocalTime,
    contacts: Option<string>,        // the text of the contacts file; None if it cannot be opened
    client: Option<MailClient>,      // None when no email service is selected
    trackerFault: WriteFault)

  function DigestPath(ns: Path, clock: LocalTime): Path {
    ns + [SecondStamp(clock) + ".html"]
  }

  /** The freshness check: the run is skipped when this holds. */
  predicate Skip(ignoreTracker: bool, feedDt: Option<int>, trackerDt: Option<int>) {
    !ignoreTracker && feedDt.Some? && trackerDt.Some? && trackerDt.value >= feedDt.value
  }

  /** The watermark as `main` sees it: read only when the feed timestamp parsed. */
  function TrackerSeen(d: Disk, ns: Path, feedDt: Option<int>): Option<int> {
    if feedDt.Some? then GetTrackerDatetime(d, ns) else None
  }

  /** `main(...)`. */
  function Run(d: Disk, cfg: Config, ignoreTracker: bool, w: Inputs): RunResult {
    match w.fetch
    case Failed => RunResult(FetchFailed, d)
    case Fetched(feed) =>
      if |feed.entries| == 0 then RunResult(NoEntries, d)
      else
        var ns := Namespace(cfg);
        var d1 := d.(dirs := EnsureDir(d.dirs, ns));
        var feedDt := FeedDatetime(feed, w.parseUpdated);
        if Skip(ignoreTracker, feedDt, TrackerSeen(d1, ns, feedDt)) then RunResult(AlreadyProcessed, d1)
        else if !w.templateExists then RunResult(TemplateMissing, d1)
        else
          var html := w.render(w.clock, feed.entries);
          var d2 := WriteFile(d1, DigestPath(ns, w.clock), html);
          Notify(d2, cfg, w, html, ns, feedDt)
  }

  /** The email step and what follows it. */
  function Notify(d: Disk, cfg: Config, w: Inputs, html: string, ns: Path, feedDt: Option<int>): RunResult {
    if w.client.None? then Finish(d, ns, feedDt, w.trackerFault)
    else match w.contacts
      case None => RunResult(ContactsUnreadable, d)
      case Some(text) =>
        var contacts := ContactsOf(ReadLines(text));
        if contacts == [] then Finish(d, ns, feedDt, w.trackerFault)
        else if !w.client.value.delivers then RunResult(DeliveryFailed, d)
        else Finish(d.(outbox := d.outbox + [Email(cfg, contacts, html)]), ns, feedDt, w.trackerFault)
  }

  /** The tracker update that closes a run. */
  function Finish(d: Disk, ns: Path, feedDt: Option<int>, fault: WriteFault): RunResult {
    RunResult(Done, if feedDt.Some? then SetTrackerDatetime(d, ns, feedDt.value, fault) else d)
  }

  /** The run gets past the fetch: the feed was parsed and has entries. */
  predicate Proceeds(w: Inputs) {
    w.fetch.Fetched? && |w.fetch.feed.entries| > 0
  }

  function FeedDt(w: Inputs): Option<int>
    requires w.fetch.Fetched?
  {
    FeedDatetime(w.fetch.feed, w.parseUpdated)
  }

  /** The run passes the freshness and template checks and renders a digest. */
  predicate Renders(d: Disk, cfg: Config, ignoreTracker: bool, w: Inputs) {
    && Proceeds(w)
    && !Skip(ignoreTracker, FeedDt(w), GetTrackerDatetime(d, Namespace(cfg)))
    && w.templateExists
  }

  /** What the tracker update changes, given the namespace directory exists. */
  lemma FinishFacts(d: Disk, ns: Path, feedDt: Option<int>, fault: WriteFault)
    requires ns in d.dirs
    ensures var r := Finish(d, ns, feedDt, fault);
            && r.outcome == Done && r.disk.dirs == d.dirs && r.disk.outbox == d.outbox
            && (forall q :: q != TrackerPath(ns) ==> SameFileAt(d, r.disk, q))
            && (!SameFileAt(d, r.disk, TrackerPath(ns)) ==> feedDt.Some?)
            && (feedDt.Some? && fault.NoFault? ==> GetTrackerDatetime(r.disk, ns) == feedDt)
            && (Valid(d) ==> Valid(r.disk))
  {
    if feedDt.Some? && fault.NoFault? {
      SetThenGet(d, ns, feedDt.value);
    }
  }

  /** What the steps after the digest write change, given the namespace directory exists. */
  lemma NotifyFacts(d: Disk, cfg: Config, w: Inputs, html: string, ns: Path, feedDt: Option<int>)
    requires ns in d.dirs
    ensures var r := Notify(d, cfg, w, html, ns, feedDt);
            && r.disk.dirs == d.dirs
            && r.outcome in {ContactsUnreadable, DeliveryFailed, Done}
            && (r.outcome == ContactsUnreadable <==> w.client.Some? && w.contacts.None?)
            && (r.outcome == DeliveryFailed <==>
                  w.client.Some? && w.contacts.Some? && ContactsOf(ReadLines(w.contacts.value)) != []
                  && !w.client.value.delivers)
            && (forall q :: q != TrackerPath(ns) ==> SameFileAt(d, r.disk, q))
            && (!SameFileAt(d, r.disk, TrackerPath(ns)) ==> r.outcome == Done && feedDt.Some?)
            && (r.outcome == Done && feedDt.Some? && w.trackerFault.NoFault? ==>
                  GetTrackerDatetime(r.disk, ns) == feedDt)
            && (Valid(d) ==> Valid(r.disk))
  {
    if w.client.None? {
      FinishFacts(d, ns, feedDt, w.trackerFault);
    } else if w.contacts.Some? {
      var contacts := ContactsOf(ReadLines(w.contacts.value));
      if contacts == [] {
        FinishFacts(d, ns, feedDt, w.trackerFault);
      } else if w.client.value.delivers {
        var sent := d.(outbox := d.outbox + [Email(cfg, contacts, html)]);
        FinishFacts(sent, ns, feedDt, w.trackerFault);
      }
    }
  }

  /** The digest a run renders. */
  function Html(w: Inputs): string
    requires w.fetch.Fetched?
  {
    w.render(w.clock, w.fetch.feed.entries)
  }

  /** The disk right after the digest write of a run that renders. */
  function Written(d: Disk, cfg: Config, ignoreTracker: bool, w: Inputs): Disk
    requires Renders(d, cfg, ignoreTracker, w)
  {
    var ns := Namespace(cfg);
    WriteFile(d.(dirs := EnsureDir(d.dirs, ns)), DigestPath(ns, w.clock), Html(w))
  }

  /** How the run ends when it does not render, and what it leaves behind then. */
  lemma ExitFacts(d: Disk, cfg: Config, ignoreTracker: bool, w: Inputs)
    requires Proceeds(w)
    ensures var r := Run(d, cfg, ignoreTracker, w);
            var ns := Namespace(cfg);
            && (r.outcome == AlreadyProcessed <==> Skip(ignoreTracker, FeedDt(w), GetTrackerDatetime(d, ns)))
            && (r.outcome == TemplateMissing <==>
                  !Skip(ignoreTracker, FeedDt(w), GetTrackerDatetime(d, ns)) && !w.templateExists)
            && (!Renders(d, cfg, ignoreTracker, w) ==> r.disk == d.(dirs := EnsureDir(d.dirs, ns)))
            && (Renders(d, cfg, ignoreTracker, w) ==>
                  r == Notify(Written(d, cfg, ignoreTracker, w), cfg, w, Html(w), ns, FeedDt(w)))
  {
  }

  /** How a run that gets past the fetch ends, and the directories it leaves. */
  lemma ProceedOutcomes(d: Disk, cfg: Config, ignoreTracker: bool, w: Inputs)
    requires Proceeds(w)
    ensures var r := Run(d, cfg, ignoreTracker, w);
            var ns := Namespace(cfg);
            && r.disk.dirs == EnsureDir(d.dirs, ns)
            && (r.outcome == AlreadyProcessed <==> Skip(ignoreTracker, FeedDt(w), GetTrackerDatetime(d, ns)))
            && (r.outcome == TemplateMissing <==>
                  !Skip(ignoreTracker, FeedDt(w), GetTrackerDatetime(d, ns)) && !w.templateExists)
            && (r.outcome in {AlreadyProcessed, TemplateMissing} ==> r.disk.files == d.files && r.disk.outbox == d.outbox)
            && (Renders(d, cfg, ignoreTracker, w) <==> r.outcome in {ContactsUnreadable, DeliveryFailed, Done})
  {
    ExitFacts(d, cfg, ignoreTracker, w);
    if Renders(d, cfg, ignoreTracker, w) {
      NotifyFacts(Written(d, cfg, ignoreTracker, w), cfg, w, Html(w), Namespace(cfg), FeedDt(w));
    }
  }

  /** A run that gets past the fetch writes no file but its digest and the TRACKER. */
  lemma ProceedFrame(d: Disk, cfg: Config, ignoreTracker: bool, w: Inputs)
    requires Proceeds(w)
    ensures var r := Run(d, cfg, ignoreTracker, w);
            var ns := Namespace(cfg);
            forall q :: q != DigestPath(ns, w.clock) && q != TrackerPath(ns) ==> SameFileAt(d, r.disk, q)
  {
    var ns := Namespace(cfg);
    ExitFacts(d, cfg, ignoreTracker, w);
    if Renders(d, cfg, ignoreTracker, w) {
      var written := Written(d, cfg, ignoreTracker, w);
      NotifyFacts(written, cfg, w, Html(w), ns, FeedDt(w));
      var r := Run(d, cfg, ignoreTracker, w);
      forall q | q != DigestPath(ns, w.clock) && q != TrackerPath(ns)
        ensures SameFileAt(d, r.disk, q)
      {
        assert SameFileAt(d, written, q);
        assert SameFileAt(written, r.disk, q);
      }
    }
  }

  /** A run that passes both checks saves its digest, and nothing later in the run replaces it. */
  lemma ProceedDigest(d: Disk, cfg: Config, ignoreTracker: bool, w: Inputs)
    requires Renders(d, cfg, ignoreTracker, w)
    ensures var r := Run(d, cfg, ignoreTracker, w);
            var p := DigestPath(Namespace(cfg), w.clock);
            p in r.disk.files && r.disk.files[p] == w.render(w.clock, w.fetch.feed.entries)
  {
    var ns := Namespace(cfg);
    ExitFacts(d, cfg, ignoreTracker, w);
    var digest := DigestPath(ns, w.clock);
    var written := Written(d, cfg, ignoreTracker, w);
    assert digest in written.files && written.files[digest] == Html(w);
    NotifyFacts(written, cfg, w, Html(w), ns, FeedDt(w));
    HtmlIsNotTracker(ns, SecondStamp(w.clock));
    assert SameFileAt(written, Run(d, cfg, ignoreTracker, w).disk, digest);
  }

  /** A run that gets past the fetch changes the TRACKER only when it completes with a known feed timestamp. */
  lemma ProceedTracker(d: Disk, cfg: Config, ignoreTracker: bool, w: Inputs)
    requires Proceeds(w)
    ensures var r := Run(d, cfg, ignoreTracker, w);
            var ns := Namespace(cfg);
            && (!SameFileAt(d, r.disk, TrackerPath(ns)) ==> r.outcome == Done && FeedDt(w).Some?)
            && (r.outcome == Done && FeedDt(w).Some? && w.trackerFault.NoFault? ==>
                  GetTrackerDatetime(r.disk, ns) == FeedDt(w))
  {
    var ns := Namespace(cfg);
    ExitFacts(d, cfg, ignoreTracker, w);
    if Renders(d, cfg, ignoreTracker, w) {
      NotifyFacts(Written(d, cfg, ignoreTracker, w), cfg, w, Html(w), ns, FeedDt(w));
      HtmlIsNotTracker(ns, SecondStamp(w.clock));
    }
  }

  /**
   * How a run that renders ends: "contacts unreadable" exactly when a client
   * is configured and the contacts file cannot be opened, "delivery failed"
   * exactly when `send_message` raises for a non-empty contact list, and
   * completed otherwise.
   */
  lemma ProceedEmail(d: Disk, cfg: Config, ignoreTracker: bool, w: Inputs)
    requires Renders(d, cfg, ignoreTracker, w)
    ensures var r := Run(d, cfg, ignoreTracker, w);
            && (r.outcome == ContactsUnreadable <==> w.client.Some? && w.contacts.None?)
            && (r.outcome == DeliveryFailed <==>
                  w.client.Some? && w.contacts.Some? && ContactsOf(ReadLines(w.contacts.value)) != []
                  && !w.client.value.delivers)
            && (r.outcome == Done <==>
                  w.client.None?
                  || (w.contacts.Some? && (ContactsOf(ReadLines(w.contacts.value)) == [] || w.client.value.delivers)))
  {
    ExitFacts(d, cfg, ignoreTracker, w);
    NotifyFacts(Written(d, cfg, ignoreTracker, w), cfg, w, Html(w), Namespace(cfg), FeedDt(w));
  }

  /** State the run leaves behind once it gets past the fetch. */
  lemma ProceedFacts(d: Disk, cfg: Config, ignoreTracker: bool, w: Inputs)
    requires Proceeds(w)
    ensures var r := Run(d, cfg, ignoreTracker, w);
            var ns := Namespace(cfg);
            && r.disk.dirs == EnsureDir(d.dirs, ns)
            && (r.outcome == AlreadyProcessed <==> Skip(ignoreTracker, FeedDt(w), GetTrackerDatetime(d, ns)))
            && (r.outcome == TemplateMissing <==>
                  !Skip(ignoreTracker, FeedDt(w), GetTrackerDatetime(d, ns)) && !w.templateExists)
            && (r.outcome in {AlreadyProcessed, TemplateMissing} ==> r.disk.files == d.files && r.disk.outbox == d.outbox)
            && (Renders(d, cfg, ignoreTracker, w) <==> r.outcome in {ContactsUnreadable, DeliveryFailed, Done})
            && (Renders(d, cfg, ignoreTracker, w) ==>
                  && (r.outcome == ContactsUnreadable <==> w.client.Some? && w.contacts.None?)
                  && (r.outcome == DeliveryFailed <==>
                        w.client.Some? && w.contacts.Some? && ContactsOf(ReadLines(w.contacts.value)) != []
                        && !w.client.value.delivers))
            && (forall q :: q != DigestPath(ns, w.clock) && q != TrackerPath(ns) ==> SameFileAt(d, r.disk, q))
            && (Renders(d, cfg, ignoreTracker, w) ==>
                  DigestPath(ns, w.clock) in r.disk.files
                  && r.disk.files[DigestPath(ns, w.clock)] == w.render(w.clock, w.fetch.feed.entries))
            && (!SameFileAt(d, r.disk, TrackerPath(ns)) ==> r.outcome == Done && FeedDt(w).Some?)
            && (r.outcome == Done && FeedDt(w).Some? && w.trackerFault.NoFault? ==>
                  GetTrackerDatetime(r.disk, ns) == FeedDt(w))
            && (Valid(d) ==> Valid(r.disk))
  {
    ProceedOutcomes(d, cfg, ignoreTracker, w);
    ProceedFrame(d, cfg, ignoreTracker, w);
    if Renders(d, cfg, ignoreTracker, w) {
      ProceedDigest(d, cfg, ignoreTracker, w);
      ProceedEmail(d, cfg, ignoreTracker, w);
    }
    ProceedTracker(d, cfg, ignoreTracker, w);
    if Valid(d) {
      RunKeepsValid(d, cfg, ignoreTracker, w);
    }
  }

  /**
   * A failed fetch or a feed without entries ends the run at once: no
   * directory, digest, email or watermark is written.
   */
  lemma EarlyExitsHaveNoEffect(d: Disk, cfg: Config, ignoreTracker: bool, w: Inputs)
    ensures Run(d, cfg, ignoreTracker, w).outcome == FetchFailed <==> w.fetch.Failed?
    ensures Run(d, cfg, ignoreTracker, w).outcome == NoEntries <==>
              w.fetch.Fetched? && |w.fetch.feed.entries| == 0
    ensures !Proceeds(w) ==> Run(d, cfg, ignoreTracker, w).disk == d
  {
    if Proceeds(w) {
      ProceedFacts(d, cfg, ignoreTracker, w);
    }
  }

  /**
   * Once the feed has entries the namespace directory (and its ancestors) is
   * created, whatever the run does next, including ending "already processed"
   * or "template not found".
   */
  lemma NamespaceCreatedFirst(d: Disk, cfg: Config, ignoreTracker: bool, w: Inputs)
    requires Proceeds(w)
    ensures Run(d, cfg, ignoreTracker, w).disk.dirs == EnsureDir(d.dirs, Namespace(cfg))
    ensures Namespace(cfg) in Run(d, cfg, ignoreTracker, w).disk.dirs
  {
    ProceedFacts(d, cfg, ignoreTracker, w);
  }

  /**
   * The run is skipped exactly when it is not forced, the feed timestamp and
   * the watermark are both known, and the watermark is not older than the
   * feed; a skipped run only creates the namespace directory.
   */
  lemma SkipRule(d: Disk, cfg: Config, ignoreTracker: bool, w: Inputs)
    ensures var ns := Namespace(cfg);
            Run(d, cfg, ignoreTracker, w).outcome == AlreadyProcessed <==>
              && Proceeds(w) && !ignoreTracker
              && FeedDt(w).Some? && GetTrackerDatetime(d, ns).Some?
              && GetTrackerDatetime(d, ns).value >= FeedDt(w).value
    ensures Run(d, cfg, ignoreTracker, w).outcome == AlreadyProcessed ==>
              Run(d, cfg, ignoreTracker, w).disk == d.(dirs := EnsureDir(d.dirs, Namespace(cfg)))
  {
    if Proceeds(w) {
      ProceedFacts(d, cfg, ignoreTracker, w);
    }
  }

  /**
   * A feed whose `updated` field is missing or unparsable can never be
   * skipped, and its run never writes the watermark.
   */
  lemma UnknownStampNeverSkips(d: Disk, cfg: Config, ignoreTracker: bool, w: Inputs)
    requires Proceeds(w) && FeedDt(w).None?
    ensures Run(d, cfg, ignoreTracker, w).outcome != AlreadyProcessed
    ensures SameFileAt(d, Run(d, cfg, ignoreTracker, w).disk, TrackerPath(Namespace(cfg)))
  {
    ProceedFacts(d, cfg, ignoreTracker, w);
  }

  /** A missing template ends the run with no digest, no email and no watermark write. */
  lemma MissingTemplateWritesNothing(d: Disk, cfg: Config, ignoreTracker: bool, w: Inputs)
    ensures Run(d, cfg, ignoreTracker, w).outcome == TemplateMissing <==>
              && Proceeds(w)
              && !Skip(ignoreTracker, FeedDt(w), GetTrackerDatetime(d, Namespace(cfg)))
              && !w.templateExists
    ensures Run(d, cfg, ignoreTracker, w).outcome == TemplateMissing ==>
              && Run(d, cfg, ignoreTracker, w).disk.files == d.files
              && Run(d, cfg, ignoreTracker, w).disk.outbox == d.outbox
  {
    if Proceeds(w) {
      ProceedFacts(d, cfg, ignoreTracker, w);
    }
  }

  /**
   * A run that passes both checks saves the rendered digest under its
   * second-resolution name, whatever then happens to the email.
   */
  lemma DigestWritten(d: Disk, cfg: Config, ignoreTracker: bool, w: Inputs)
    requires Renders(d, cfg, ignoreTracker, w)
    ensures var r := Run(d, cfg, ignoreTracker, w);
            var p := DigestPath(Namespace(cfg), w.clock);
            && r.outcome in {ContactsUnreadable, DeliveryFailed, Done}
            && p in r.disk.files && r.disk.files[p] == w.render(w.clock, w.fetch.feed.entries)
  {
    ProceedFacts(d, cfg, ignoreTracker, w);
  }

  /**
   * Email is attempted only with a client and a non-empty contact list; then
   * exactly one message goes out, from the sender, to all contacts joined by
   * commas, with subject "<template_name> Posts" and the digest as body.
   */
  lemma EmailRule(d: Disk, cfg: Config, ignoreTracker: bool, w: Inputs)
    ensures var r := Run(d, cfg, ignoreTracker, w);
            r.disk.outbox != d.outbox <==>
              && Renders(d, cfg, ignoreTracker, w)
              && w.client.Some? && w.contacts.Some?
              && ContactsOf(ReadLines(w.contacts.value)) != []
              && w.client.value.delivers
    ensures var r := Run(d, cfg, ignoreTracker, w);
            r.disk.outbox != d.outbox ==>
              r.disk.outbox == d.outbox + [Message(cfg.sender, Join(ContactsOf(ReadLines(w.contacts.value))),
                                                   cfg.templateName + " Posts",
                                                   w.render(w.clock, w.fetch.feed.entries))]
  {
    if Proceeds(w) {
      ProceedFacts(d, cfg, ignoreTracker, w);
    }
  }

  /** Without an email client the contacts file is never read. */
  lemma NoClientIgnoresContacts(d: Disk, cfg: Config, ignoreTracker: bool, w: Inputs, other: Option<string>)
    requires w.client.None?
    ensures Run(d, cfg, ignoreTracker, w) == Run(d, cfg, ignoreTracker, w.(contacts := other))
  {
  }

  /**
   * The watermark changes only in a run that completes every step with a
   * known feed timestamp, and then (when the write succeeds) it reads back
   * as that timestamp. A run that renders completes unless a client is
   * configured and the contacts file cannot be opened or `send_message`
   * raises; in those two cases the TRACKER is left untouched.
   */
  lemma TrackerWrittenLast(d: Disk, cfg: Config, ignoreTracker: bool, w: Inputs)
    ensures var r := Run(d, cfg, ignoreTracker, w);
            !SameFileAt(d, r.disk, TrackerPath(Namespace(cfg))) ==>
              r.outcome == Done && FeedDt(w).Some?
    ensures var r := Run(d, cfg, ignoreTracker, w);
            r.outcome == Done && FeedDt(w).Some? && w.trackerFault.NoFault? ==>
              GetTrackerDatetime(r.disk, Namespace(cfg)) == FeedDt(w)
    ensures Renders(d, cfg, ignoreTracker, w) ==>
              (Run(d, cfg, ignoreTracker, w).outcome == Done <==>
                 w.client.None?
                 || (w.contacts.Some? && (ContactsOf(ReadLines(w.contacts.value)) == [] || w.client.value.delivers)))
  {
    if Proceeds(w) {
      ProceedTracker(d, cfg, ignoreTracker, w);
      if Renders(d, cfg, ignoreTracker, w) {
        ProceedEmail(d, cfg, ignoreTracker, w);
      }
    }
  }

  /**
   * If a client is configured and opening the contacts file or
   * `send_message` raises, the run does not complete and the TRACKER keeps
   * its old content, so the next run retries.
   */
  lemma FailedSendKeepsTracker(d: Disk, cfg: Config, ignoreTracker: bool, w: Inputs)
    requires Renders(d, cfg, ignoreTracker, w) && w.client.Some?
    requires w.contacts.None? || (ContactsOf(ReadLines(w.contacts.value)) != [] && !w.client.value.delivers)
    ensures Run(d, cfg, ignoreTracker, w).outcome in {ContactsUnreadable, DeliveryFailed}
    ensures SameFileAt(d, Run(d, cfg, ignoreTracker, w).disk, TrackerPath(Namespace(cfg)))
  {
    ProceedEmail(d, cfg, ignoreTracker, w);
    ProceedTracker(d, cfg, ignoreTracker, w);
  }

  /**
   * Idempotence: after a completed run whose watermark write succeeded, an
   * unforced run on a feed that has not advanced is skipped and changes
   * nothing, so no second digest is written.
   */
  lemma RepeatRunIsSkipped(d: Disk, cfg: Config, ignoreTracker: bool, w1: Inputs, w2: Inputs)
    requires Run(d, cfg, ignoreTracker, w1).outcome == Done
    requires FeedDt(w1).Some? && w1.trackerFault.NoFault?
    requires Proceeds(w2) && FeedDt(w2).Some? && FeedDt(w2).value <= FeedDt(w1).value
    ensures var r1 := Run(d, cfg, ignoreTracker, w1);
            Run(r1.disk, cfg, false, w2) == RunResult(AlreadyProcessed, r1.disk)
  {
    var r1 := Run(d, cfg, ignoreTracker, w1);
    ProceedFacts(d, cfg, ignoreTracker, w1);
    ProceedFacts(r1.disk, cfg, false, w2);
    EnsureDirIdempotent(d.dirs, Namespace(cfg));
  }

  /**
   * A forced run that completes with a known feed timestamp overwrites the
   * watermark with it, whatever the watermark held before, even a later
   * instant: the watermark can move backwards.
   */
  lemma ForcedRunOverwrites(d: Disk, cfg: Config, w: Inputs)
    requires Proceeds(w) && w.templateExists && w.client.None?
    requires FeedDt(w).Some? && w.trackerFault.NoFault?
    ensures Run(d, cfg, true, w).outcome == Done
    ensures GetTrackerDatetime(Run(d, cfg, true, w).disk, Namespace(cfg)) == FeedDt(w)
  {
    ProceedFacts(d, cfg, true, w);
  }

  /** An unforced run that replaces a readable watermark replaces it with a later instant. */
  lemma UnforcedRunAdvancesWatermark(d: Disk, cfg: Config, w: Inputs)
    requires Run(d, cfg, false, w).outcome == Done
    requires FeedDt(w).Some? && GetTrackerDatetime(d, Namespace(cfg)).Some?
    ensures GetTrackerDatetime(d, Namespace(cfg)).value < FeedDt(w).value
  {
    ProceedFacts(d, cfg, false, w);
  }

  /**
   * Digests of runs at different seconds never overwrite each other: a later
   * run keeps the digest an earlier one saved.
   */
  lemma DistinctSecondsKeepDigests(d: Disk, cfg: Config, ig1: bool, w1: Inputs, ig2: bool, w2: Inputs)
    requires Renders(d, cfg, ig1, w1)
    requires w1.clock.WellFormed() && w2.clock.WellFormed() && w1.clock != w2.clock
    ensures var r1 := Run(d, cfg, ig1, w1);
            var r2 := Run(r1.disk, cfg, ig2, w2);
            var p := DigestPath(Namespace(cfg), w1.clock);
            p in r2.disk.files && SameFileAt(r1.disk, r2.disk, p)
  {
    var r1 := Run(d, cfg, ig1, w1);
    var ns := Namespace(cfg);
    DigestWritten(d, cfg, ig1, w1);
    HtmlIsNotTracker(ns, SecondStamp(w1.clock));
    DigestPathsDistinct(ns, w1.clock, w2.clock);
    RunFrame(r1.disk, cfg, ig2, w2, DigestPath(ns, w1.clock));
  }

  lemma DigestPathsDistinct(ns: Path, c1: LocalTime, c2: LocalTime)
    requires c1.WellFormed() && c2.WellFormed() && c1 != c2
    ensures DigestPath(ns, c1) != DigestPath(ns, c2)
  {
    if DigestPath(ns, c1) == DigestPath(ns, c2) {
      assert SecondStamp(c1) + ".html" == SecondStamp(c2) + ".html" by {
        assert DigestPath(ns, c1)[|ns|] == DigestPath(ns, c2)[|ns|];
      }
      DigestNames.SplitConcat(SecondStamp(c1), ".html", SecondStamp(c2), ".html");
      SecondStampInjective(c1, c2);
    }
  }

  /** A run writes no file other than its digest and the TRACKER. */
  lemma RunFrame(d: Disk, cfg: Config, ignoreTracker: bool, w: Inputs, q: Path)
    requires q != DigestPath(Namespace(cfg), w.clock) && q != TrackerPath(Namespace(cfg))
    ensures SameFileAt(d, Run(d, cfg, ignoreTracker, w).disk, q)
  {
    if Proceeds(w) {
      ProceedFacts(d, cfg, ignoreTracker, w);
    }
  }

  /** A run keeps the disk a well-formed tree with every file inside a directory. */
  lemma RunKeepsValid(d: Disk, cfg: Config, ignoreTracker: bool, w: Inputs)
    requires Valid(d)
    ensures Valid(Run(d, cfg, ignoreTracker, w).disk)
  {
    if Proceeds(w) {
      ExitFacts(d, cfg, ignoreTracker, w);
      var ns := Namespace(cfg);
      var d1 := d.(dirs := EnsureDir(d.dirs, ns));
      assert Valid(d1);
      if Renders(d, cfg, ignoreTracker, w) {
        var digest := DigestPath(ns, w.clock);
        assert digest[..|digest| - 1] == ns;
        assert Valid(Written(d, cfg, ignoreTracker, w));
        NotifyFacts(Written(d, cfg, ignoreTracker, w), cfg, w, Html(w), ns, FeedDt(w));
      }
    }
  }
}
