/**
 * The pipeline as the source runs it: step by step, with early returns,
 * changing a workspace (directories, files, sent messages) in place. Each
 * entry point is proved to leave exactly the outcome and state that its
 * specification function (`Pipeline.Run`, `LegacyPipeline.Run`) describes.
 */
module Orchestrator {
  import opened Wrappers
  import opened Posts
  import opened Contacts
  import opened FileSystem
  import opened Watermark
  import opened DigestNames
  import opened Feeds
  import Pipeline
  import LegacyPipeline

  class Workspace {
    var dirs: set<Path>
    var files: map<Path, string>
    var outbox: seq<Message>

    function Snapshot(): Disk
      reads this
    {
      Disk(dirs, files, outbox)
    }

    ghost predicate Valid()
      reads this
    {
      FileSystem.Valid(Snapshot())
    }

    constructor (d: Disk)
      requires FileSystem.Valid(d)
      ensures Valid() && Snapshot() == d
    {
      dirs, files, outbox := d.dirs, d.files, d.outbox;
    }

    /** `p.mkdir(parents=True, exist_ok=True)`. */
    method MakeDirs(p: Path)
      requires Valid()
      modifies this
      ensures Valid()
      ensures dirs == old(dirs) + Prefixes(p) && files == old(files) && outbox == old(outbox)
    {
      dirs := dirs + Prefixes(p);
      EnsureDirAddsOnlyAncestors(old(dirs), p);
    }

    /** `open(p, "w").write(content)` in an existing directory. */
    method WriteFile(p: Path, content: string)
      requires Valid() && |p| > 0 && p[..|p| - 1] in dirs
      modifies this
      ensures Valid()
      ensures files == old(files)[p := content] && dirs == old(dirs) && outbox == old(outbox)
    {
      files := files[p := content];
    }

    /** `get_tracker_datetime(dir)`. */
    method ReadTracker(dir: Path) returns (t: Option<int>)
      ensures t.Some? ==> TrackerPath(dir) in files
      ensures t == GetTrackerDatetime(Snapshot(), dir)
    {
      t := GetTrackerDatetime(Snapshot(), dir);
    }

    /** `set_tracker_datetime(dir, t)`: open truncates, then the text is written; errors are swallowed. */
    method SetTracker(dir: Path, t: int, fault: WriteFault)
      requires Valid()
      modifies this
      ensures Valid()
      ensures Snapshot() == SetTrackerDatetime(old(Snapshot()), dir, t, fault)
    {
      var p := TrackerPath(dir);
      assert p[..|p| - 1] == dir;
      if dir !in dirs || fault.OpenFails? {
        return;
      }
      files := files[p := ""];
      if fault.WriteFails? {
        return;
      }
      files := files[p := Encode(t)];
    }

    /** `email_client.send_message(message)`; false where it raises. */
    method SendMessage(client: MailClient, message: Message) returns (sent: bool)
      modifies this
      ensures sent == client.delivers
      ensures outbox == if sent then old(outbox) + [message] else old(outbox)
      ensures dirs == old(dirs) && files == old(files)
    {
      sent := client.delivers;
      if sent {
        outbox := outbox + [message];
      }
    }

    /** `feedme/__main__.py` `main`. */
    method Run(cfg: Config, ignoreTracker: bool, w: Pipeline.Inputs) returns (outcome: Outcome)
      requires Valid()
      modifies this
      ensures Valid()
      ensures RunResult(outcome, Snapshot()) == Pipeline.Run(old(Snapshot()), cfg, ignoreTracker, w)
    {
      ghost var before := Snapshot();
      if w.fetch.Failed? {
        return FetchFailed;
      }
      var feed := w.fetch.feed;
      if |feed.entries| == 0 {
        return NoEntries;
      }
      Pipeline.ExitFacts(before, cfg, ignoreTracker, w);

      var ns := Namespace(cfg);
      if ns !in dirs {
        MakeDirs(ns);
      }
      assert dirs == EnsureDir(before.dirs, ns);

      var feedDt := FeedDatetime(feed, w.parseUpdated);
      var trackerDt: Option<int> := None;
      if feedDt.Some? {
        trackerDt := ReadTracker(ns);
      }
      if !ignoreTracker && feedDt.Some? && trackerDt.Some? && trackerDt.value >= feedDt.value {
        return AlreadyProcessed;
      }

      if !w.templateExists {
        return TemplateMissing;
      }
      var html := w.render(w.clock, feed.entries);
      var digest := Pipeline.DigestPath(ns, w.clock);
      assert digest[..|digest| - 1] == ns;
      WriteFile(digest, html);
      assert Snapshot() == Pipeline.Written(before, cfg, ignoreTracker, w);

      outcome := NotifyStep(cfg, w, html, ns, feedDt);
    }

    /** The email step of `feedme/__main__.py` `main` and the tracker update after it. */
    method NotifyStep(cfg: Config, w: Pipeline.Inputs, html: string, ns: Path, feedDt: Option<int>)
      returns (outcome: Outcome)
      requires Valid()
      modifies this
      ensures Valid()
      ensures RunResult(outcome, Snapshot()) == Pipeline.Notify(old(Snapshot()), cfg, w, html, ns, feedDt)
    {
      if w.client.Some? {
        if w.contacts.None? {
          return ContactsUnreadable;
        }
        var contacts := ParseContacts(w.contacts.value);
        if |contacts| != 0 {
          var sent := SendMessage(w.client.value, Email(cfg, contacts, html));
          if !sent {
            return DeliveryFailed;
          }
        }
      }

      if feedDt.Some? {
        SetTracker(ns, feedDt.value, w.trackerFault);
      }
      return Done;
    }

    /** `feedme/app.py` `main`. */
    method LegacyRun(cfg: Config, w: LegacyPipeline.Inputs) returns (outcome: Outcome)
      requires Valid()
      modifies this
      ensures Valid()
      ensures RunResult(outcome, Snapshot()) == LegacyPipeline.Run(old(Snapshot()), cfg, w)
    {
      ghost var before := Snapshot();
      if w.fetch.Failed? {
        return FetchFailed;
      }
      var feed := w.fetch.feed;
      if |feed.entries| == 0 {
        return NoEntries;
      }
      LegacyPipeline.ExitFacts(before, cfg, w);

      var ns := Namespace(cfg);
      if ns !in dirs {
        MakeDirs(ns);
      }
      assert dirs == EnsureDir(before.dirs, ns);

      var feedDt := FeedDatetime(feed, w.parseUpdated);
      if feedDt.None? {
        return TimestampInvalid;
      }
      var trackerDt := ReadTracker(ns);
      if trackerDt.Some? && trackerDt.value >= feedDt.value {
        return AlreadyProcessed;
      }

      var posts := ParsePosts(feed.entries);
      if posts.None? {
        return EntryFieldMissing;
      }
      if !w.templateExists {
        return TemplateMissing;
      }
      var date := DayStamp(w.clock);
      var html := w.render(date, posts.value);
      var digest := LegacyPipeline.DigestPath(ns, w.clock);
      assert digest[..|digest| - 1] == ns;
      WriteFile(digest, html);
      assert Snapshot() == LegacyPipeline.Written(before, cfg, w);

      outcome := LegacyNotifyStep(cfg, w, html, ns, feedDt.value);
    }

    /** The email step of `feedme/app.py` `main` and the tracker update after it. */
    method LegacyNotifyStep(cfg: Config, w: LegacyPipeline.Inputs, html: string, ns: Path, feedDt: int)
      returns (outcome: Outcome)
      requires Valid()
      modifies this
      ensures Valid()
      ensures RunResult(outcome, Snapshot()) == LegacyPipeline.Notify(old(Snapshot()), cfg, w, html, ns, feedDt)
    {
      if w.contacts.None? {
        return ContactsUnreadable;
      }
      var contacts := ParseContacts(w.contacts.value);
      var sent := SendMessage(w.client, Email(cfg, contacts, html));
      if !sent {
        return DeliveryFailed;
      }

      // `if feed_datetime is not None` cannot fail here: the parse above either produced a value or aborted.
      SetTracker(ns, feedDt, w.trackerFault);
      return Done;
    }
  }
}
