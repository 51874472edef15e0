/**
 * The TRACKER watermark of one output namespace (`get_tracker_datetime`,
 * `set_tracker_datetime`). A timestamp is an instant, written as one line of
 * text; the ISO 8601 rendering `isoformat` produces is represented by the
 * signed decimal numeral of that instant, and `fromisoformat` by its parser.
 * Neither operation ever raises: an unreadable TRACKER reads as absent and a
 * failed write is ignored.
 */
module Watermark {
  import opened Wrappers
  import opened Text
  import opened Numerals
  import opened FileSystem

  function TrackerPath(dir: Path): Path {
    dir + ["TRACKER"]
  }

  /** A page `<stem>.html` in a namespace never lands on its TRACKER file: their names differ. */
  lemma HtmlIsNotTracker(dir: Path, stem: string)
    ensures dir + [stem + ".html"] != TrackerPath(dir)
  {
    var page := stem + ".html";
    assert page[|page| - 1] == 'l' && "TRACKER"[6] == 'R';
    assert (dir + [page])[|dir|] == page && TrackerPath(dir)[|dir|] == "TRACKER";
  }

  /** `new_datetime.isoformat()`. */
  function Encode(t: int): (s: string)
    ensures '\n' !in s && '\r' !in s
  {
    if t < 0 then "-" + Digits(-t) else Digits(t)
  }

  /** `datetime.fromisoformat(s)`, `None` where it would raise `ValueError`. */
  function Decode(s: string): Option<int> {
    if |s| > 0 && s[0] == '-' then
      (if IsNumeral(s[1..]) then var magnitude: int := Value(s[1..]); Some(-magnitude) else None)
    else if IsNumeral(s) then Some(Value(s))
    else None
  }

  /** Reading back what `isoformat` wrote gives the same instant. */
  lemma DecodeEncode(t: int)
    ensures Decode(Encode(t)) == Some(t)
  {
    var s := Encode(t);
    if t < 0 {
      assert s[1..] == Digits(-t);
      DigitsValue(-t);
    } else {
      DigitsValue(t);
      assert IsDigit(s[0]);
    }
  }

  /** What a failed write attempt leaves behind. */
  datatype WriteFault =
    | NoFault      // the whole text was written
    | OpenFails    // `open(..., "w")` raised: the file is untouched
    | WriteFails   // `f.write` raised after `open` had truncated the file

  /** `get_tracker_datetime(dir)`: the stored instant, or `None` for a missing or unreadable file. */
  function GetTrackerDatetime(d: Disk, dir: Path): Option<int> {
    var p := TrackerPath(dir);
    if p in d.files then Decode(FirstLine(d.files[p])) else None
  }

  /** `set_tracker_datetime(dir, t)`: the TRACKER file after the attempt. */
  function SetTrackerDatetime(d: Disk, dir: Path, t: int, fault: WriteFault): (r: Disk)
    ensures r.dirs == d.dirs && r.outbox == d.outbox
    ensures forall q :: q != TrackerPath(dir) ==> (q in r.files <==> q in d.files)
    ensures forall q :: q != TrackerPath(dir) && q in d.files ==> r.files[q] == d.files[q]
    ensures Valid(d) ==> Valid(r)
  {
    var p := TrackerPath(dir);
    assert p[..|p| - 1] == dir;
    if dir !in d.dirs || fault.OpenFails? then d
    else if fault.WriteFails? then WriteFile(d, p, "")
    else WriteFile(d, p, Encode(t))
  }

  /** After a successful write the watermark reads back as the instant written. */
  lemma SetThenGet(d: Disk, dir: Path, t: int)
    requires dir in d.dirs
    ensures GetTrackerDatetime(SetTrackerDatetime(d, dir, t, NoFault), dir) == Some(t)
  {
    FirstLineOfOneLine(Encode(t));
    DecodeEncode(t);
  }

  /** A write that fails after truncating leaves a watermark that reads as absent. */
  lemma TruncatedReadsAbsent(d: Disk, dir: Path, t: int)
    requires dir in d.dirs
    ensures GetTrackerDatetime(SetTrackerDatetime(d, dir, t, WriteFails), dir) == None
  {
    assert FirstLine("") == "";
  }

  /** Whatever the fault, the write touches the TRACKER file and nothing else, and never raises. */
  lemma SetTouchesOnlyTracker(d: Disk, dir: Path, t: int, fault: WriteFault)
    ensures var r := SetTrackerDatetime(d, dir, t, fault);
            r.files == d.files || r.files == d.files[TrackerPath(dir) := if fault.NoFault? then Encode(t) else ""]
  {
  }
}
