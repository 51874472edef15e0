/**
 * The part of the outside world the pipeline changes: directories, files
 * (digests and the TRACKER watermark) and the messages handed to the mail
 * service.
 */
module FileSystem {

  /** A path as its sequence of components; `[]` is the directory the paths are relative to. */
  type Path = seq<string>

  /** A message as `create_message(sender, to, subject, message_text)` builds it. */
  datatype Message = Message(sender: string, to: string, subject: string, body: string)

  datatype Disk = Disk(dirs: set<Path>, files: map<Path, string>, outbox: seq<Message>)

  /** Every ancestor of a directory is a directory. */
  ghost predicate PrefixClosed(dirs: set<Path>) {
    forall p, k :: p in dirs && 0 <= k <= |p| ==> p[..k] in dirs
  }

  /** The root exists, directories form a tree and every file sits in a directory. */
  ghost predicate Valid(d: Disk) {
    && [] in d.dirs
    && PrefixClosed(d.dirs)
    && forall f :: f in d.files ==> |f| > 0 && f[..|f| - 1] in d.dirs
  }

  function Prefixes(p: Path): set<Path> {
    set k | 0 <= k <= |p| :: p[..k]
  }

  /** `if not p.exists(): p.mkdir(parents=True, exist_ok=True)`. */
  function EnsureDir(dirs: set<Path>, p: Path): (r: set<Path>)
    ensures p in r && dirs <= r
    ensures PrefixClosed(dirs) ==> PrefixClosed(r)
  {
    assert p[..|p|] == p;
    if p in dirs then dirs
    else
      var r := dirs + Prefixes(p);
      assert forall q, k :: q in Prefixes(p) && 0 <= k <= |q| ==> q[..k] in Prefixes(p) by {
        forall q, k | q in Prefixes(p) && 0 <= k <= |q| ensures q[..k] in Prefixes(p) {
          var m :| 0 <= m <= |p| && q == p[..m];
          assert q[..k] == p[..k];
        }
      }
      r
  }

  /** Creating a directory that already exists changes nothing; a second creation is a no-op. */
  lemma EnsureDirIdempotent(dirs: set<Path>, p: Path)
    ensures EnsureDir(EnsureDir(dirs, p), p) == EnsureDir(dirs, p)
    ensures p in dirs ==> EnsureDir(dirs, p) == dirs
  {
  }

  /** Creation adds the directory and its missing ancestors and nothing else. */
  lemma EnsureDirAddsOnlyAncestors(dirs: set<Path>, p: Path)
    requires PrefixClosed(dirs)
    ensures forall q :: q in EnsureDir(dirs, p) ==> q in dirs || q in Prefixes(p)
    ensures Prefixes(p) <= EnsureDir(dirs, p)
  {
    if p in dirs {
      forall q | q in Prefixes(p) ensures q in dirs {
        var k :| 0 <= k <= |p| && q == p[..k];
      }
    }
  }

  /** `p` is the same file, or equally absent, in both states. */
  predicate SameFileAt(d: Disk, e: Disk, p: Path) {
    && (p in d.files <==> p in e.files)
    && (p in d.files ==> d.files[p] == e.files[p])
  }

  function WriteFile(d: Disk, p: Path, content: string): (r: Disk)
    ensures r.dirs == d.dirs && r.outbox == d.outbox
    ensures p in r.files && r.files[p] == content
    ensures forall q :: q != p ==> (q in r.files <==> q in d.files)
    ensures forall q :: q != p && q in d.files ==> r.files[q] == d.files[q]
  {
    d.(files := d.files[p := content])
  }
}
