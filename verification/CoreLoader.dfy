/** Activation of a custom core: download, check, probe, rename, switch a symbolic link, and leave a
    marker; or switch the link back to the stock core.  Any call on the file system may fail, and
    the machine may stop between any two of them. */
module CoreLoader {
  import opened Bytes
  import opened CoreSpecs
  import opened JsonValues
  import opened Wrappers

  type Content = seq<byte>
  type Digest = string

  /** The paths a managed link named rw-core works with; they all differ. */
  datatype Path =
    | Active | ActiveTmp | Stock | Custom | Staged | StagedDownload | Marker | MarkerTmp | Elsewhere(name: string)

  datatype Node = File(content: Content, exec: bool, mtime: int) | Link(target: Path) | Directory

  type FS = map<Path, Node>

  function At(fs: FS, p: Path): Option<Node> {
    if p in fs then Some(fs[p]) else None
  }

  predicate IsLink(n: Option<Node>) {
    n.Some? && n.value.Link?
  }

  predicate IsFile(n: Option<Node>) {
    n.Some? && n.value.File?
  }

  predicate IsExecutable(n: Option<Node>) {
    IsFile(n) && n.value.exec
  }

  /** All other paths are as they were. */
  ghost predicate ChangesOnly(a: FS, b: FS, paths: set<Path>) {
    forall p :: p !in paths ==> At(a, p) == At(b, p)
  }

  /** Size and modification time. */
  type Stamp = (nat, int)

  function StampOf(n: Node): Stamp
    requires n.File?
  {
    (|n.content|, n.mtime)
  }

  datatype CoreMarker = CoreMarker(url: string, sha256: Digest, size: nat, mtime: int)

  const MAX_SIZE: nat := 134217728

  lemma {:induction false} LaterThan(used: set<Stamp>) returns (late: int)
    ensures forall s :: s in used ==> s.1 < late
  {
    if used == {} {
      late := 0;
    } else {
      var s :| s in used;
      var before := LaterThan(used - {s});
      late := if before <= s.1 then s.1 + 1 else before;
      forall x | x in used ensures x.1 < late { assert x != s ==> x in used - {s}; }
    }
  }

  // ---------------------------------------------------------------- the file system

  /** The disk and what the loader asks the world: every call may fail when `faulty`, and once the
      machine has `crashed` no call has an effect until the next boot. */
  class Disk {
    var fs: FS
    var crashed: bool
    var faulty: bool
    /** Stamps of files written so far, and of files named by markers. */
    var used: set<Stamp>
    /** Contents that have passed the version probe, and digests that were asked for. */
    ghost var probed: set<Content>
    ghost var wanted: set<Digest>
    /** Downloads started. */
    ghost var downloads: nat

    const sha256: Content -> Digest
    const encode: CoreMarker -> Content
    const decode: Content -> Option<CoreMarker>
    /** Whether every file written gets a stamp that was not used before. */
    const freshStamps: bool

    constructor (fs: FS, sha256: Content -> Digest, encode: CoreMarker -> Content,
                 decode: Content -> Option<CoreMarker>, freshStamps: bool, used: set<Stamp>,
                 ghost probed: set<Content>, ghost wanted: set<Digest>)
      ensures this.fs == fs && this.sha256 == sha256 && this.encode == encode && this.decode == decode
      ensures this.freshStamps == freshStamps && this.used == used && this.probed == probed && this.wanted == wanted
    {
      this.fs := fs;
      this.sha256 := sha256;
      this.encode := encode;
      this.decode := decode;
      this.freshStamps := freshStamps;
      this.used, this.probed, this.wanted := used, probed, wanted;
      crashed, faulty, downloads := false, true, 0;
    }

    ghost function Now(): Past
      reads this
    {
      Past(sha256, decode, freshStamps, used, probed, wanted)
    }

    /** A new boot, in a good or a bad environment. */
    method Boot(faulty: bool)
      modifies this`crashed, this`faulty
      ensures !crashed && this.faulty == faulty
    {
      crashed := false;
      this.faulty := faulty;
    }

    /** Whether the next call goes wrong, possibly because the machine stops. */
    method Trouble() returns (trouble: bool)
      modifies this`crashed
      ensures (old(crashed) ==> trouble) && (!faulty ==> crashed == old(crashed))
      ensures !trouble ==> !crashed
      ensures !faulty && !old(crashed) ==> !trouble
      ensures old(crashed) ==> crashed
    {
      var fails: bool, stops: bool := *, *;
      if faulty && stops {
        crashed := true;
      }
      trouble := crashed || (faulty && fails);
    }

    /** `os.Remove`: a missing path is told apart from a failure. */
    method Remove(p: Path) returns (failed: bool)
      modifies this`fs, this`crashed
      ensures (old(crashed) ==> crashed && failed) && (!faulty ==> crashed == old(crashed))
      ensures !failed ==> !crashed && At(fs, p) == None && ChangesOnly(old(fs), fs, {p})
      ensures failed ==> fs == old(fs)
      ensures !faulty && !old(crashed) && At(old(fs), p) != Some(Directory) ==> !failed
    {
      failed := Trouble();
      if failed || At(fs, p) == Some(Directory) {
        return true;
      }
      fs := fs - {p};
    }

    method Symlink(target: Path, p: Path) returns (failed: bool)
      modifies this`fs, this`crashed
      ensures (old(crashed) ==> crashed && failed) && (!faulty ==> crashed == old(crashed))
      ensures !failed ==> !crashed && At(old(fs), p) == None && At(fs, p) == Some(Link(target))
      ensures !failed ==> ChangesOnly(old(fs), fs, {p})
      ensures failed ==> fs == old(fs)
      ensures !faulty && !old(crashed) && At(old(fs), p) == None ==> !failed
    {
      failed := Trouble();
      if failed || p in fs {
        return true;
      }
      fs := fs[p := Link(target)];
    }

    /** `os.Rename` replaces what is at the target in one step, unless it is a directory. */
    method Rename(from: Path, to: Path) returns (failed: bool)
      requires from != to
      modifies this`fs, this`crashed
      ensures (old(crashed) ==> crashed && failed) && (!faulty ==> crashed == old(crashed))
      ensures !failed ==> !crashed && At(old(fs), from).Some? && At(old(fs), to) != Some(Directory)
      ensures !failed ==> At(fs, to) == At(old(fs), from) && At(fs, from) == None
      ensures !failed ==> ChangesOnly(old(fs), fs, {from, to})
      ensures failed ==> fs == old(fs)
      ensures !faulty && !old(crashed) && At(old(fs), from).Some? && At(old(fs), to) != Some(Directory) ==> !failed
    {
      failed := Trouble();
      if failed || from !in fs || At(fs, to) == Some(Directory) {
        return true;
      }
      fs := (fs - {from})[to := fs[from]];
    }

    /** Opens a new file; an existing path is refused. */
    method CreateExclusive(p: Path) returns (failed: bool)
      modifies this`fs, this`crashed
      ensures (old(crashed) ==> crashed && failed) && (!faulty ==> crashed == old(crashed))
      ensures !failed ==> !crashed && At(old(fs), p) == None && IsFile(At(fs, p)) && ChangesOnly(old(fs), fs, {p})
      ensures failed ==> fs == old(fs)
      ensures !faulty && !old(crashed) && At(old(fs), p) == None ==> !failed
    {
      failed := Trouble();
      if failed || p in fs {
        return true;
      }
      var now: int := *;
      fs := fs[p := File([], false, now)];
    }

    /** Writes a file; when that fails a beginning of the data may be there. */
    method WriteAll(p: Path, data: Content) returns (failed: bool)
      requires !IsLink(At(fs, p))
      modifies this`fs, this`crashed, this`used
      ensures (old(crashed) ==> crashed && failed && fs == old(fs)) && (!faulty ==> crashed == old(crashed))
      ensures ChangesOnly(old(fs), fs, {p})
      ensures At(fs, p) == At(old(fs), p) || IsFile(At(fs, p))
      ensures !failed ==> !crashed && IsFile(At(fs, p)) && fs[p].content == data && StampOf(fs[p]) in used
      ensures !failed && freshStamps ==> StampOf(fs[p]) !in old(used)
      ensures old(used) <= used
      ensures !faulty && !old(crashed) && At(old(fs), p) != Some(Directory) ==> !failed
    {
      var was := crashed;
      failed := Trouble();
      if was || At(fs, p) == Some(Directory) {
        return true;
      }
      var exec := p in fs && fs[p].exec;
      var now: int := *;
      if failed {
        var begun: bool, n: nat := *, *;
        if begun && n <= |data| {
          fs := fs[p := File(data[..n], exec, now)];
        }
        return;
      }
      if freshStamps {
        now := FreshTime(|data|);
      }
      fs := fs[p := File(data, exec, now)];
      used := used + {(|data|, now)};
    }

    /** A time that makes a new stamp, whatever the size. */
    method FreshTime(size: nat) returns (now: int)
      ensures (size, now) !in used
    {
      ghost var late := LaterThan(used);
      assert (size, late) !in used;
      now :| (size, now) !in used;
    }

    method Chmod(p: Path) returns (failed: bool)
      modifies this`fs, this`crashed
      ensures (old(crashed) ==> crashed && failed) && (!faulty ==> crashed == old(crashed))
      ensures !failed ==> !crashed && IsFile(At(old(fs), p)) && At(fs, p) == Some(At(old(fs), p).value.(exec := true))
      ensures !failed ==> ChangesOnly(old(fs), fs, {p})
      ensures failed ==> fs == old(fs)
      ensures !faulty && !old(crashed) && IsFile(At(old(fs), p)) ==> !failed
    {
      failed := Trouble();
      if failed || !IsFile(At(fs, p)) {
        return true;
      }
      fs := fs[p := fs[p].(exec := true)];
    }
  }

  // ---------------------------------------------------------------- what is kept

  /** What has happened so far, as far as the invariant needs it. */
  datatype Past = Past(sha256: Content -> Digest, decode: Content -> Option<CoreMarker>, freshStamps: bool,
                       used: set<Stamp>, probed: set<Content>, wanted: set<Digest>)

  /** A later moment. */
  ghost predicate Later(r: Past, r': Past) {
    && r'.sha256 == r.sha256 && r'.decode == r.decode && r'.freshStamps == r.freshStamps
    && r.used <= r'.used && r.probed <= r'.probed && r.wanted <= r'.wanted
  }

  /** A core that has the digest some request asked for and has passed the version probe. */
  predicate Vetted(c: Content, r: Past) {
    c in r.probed && r.sha256(c) in r.wanted
  }

  /** A link at the active path leads to an executable file that is the stock core, or one of the
      administrator's, or the custom core, which then is vetted. */
  predicate ActiveOk(fs: FS, r: Past) {
    IsLink(At(fs, Active)) ==>
      var t := At(fs, Active).value.target;
      && (t == Stock || t == Custom || t.Elsewhere?)
      && IsExecutable(At(fs, t))
      && (t == Custom ==> Vetted(At(fs, t).value.content, r))
  }

  function MarkerIn(fs: FS, decode: Content -> Option<CoreMarker>): Option<CoreMarker> {
    if IsFile(At(fs, Marker)) then decode(At(fs, Marker).value.content) else None
  }

  predicate HasStamp(n: Option<Node>, size: nat, mtime: int) {
    IsFile(n) && StampOf(n.value) == (size, mtime)
  }

  /** Whenever the custom file has the stamp the marker names, it has the marker's digest. */
  predicate MarkerOk(fs: FS, r: Past) {
    var m := MarkerIn(fs, r.decode);
    m.Some? ==>
      && (m.value.size, m.value.mtime) in r.used
      && (HasStamp(At(fs, Custom), m.value.size, m.value.mtime) ==>
            r.sha256(At(fs, Custom).value.content) == m.value.sha256)
  }

  /** No symbolic link where the loader expects a plain file. */
  predicate Plain(fs: FS) {
    !IsLink(At(fs, Stock)) && !IsLink(At(fs, Marker)) && !IsLink(At(fs, MarkerTmp))
  }

  lemma PlainMarker(fs: FS)
    requires Plain(fs)
    ensures !IsLink(At(fs, MarkerTmp))
  {
  }

  predicate Good(fs: FS, r: Past) {
    Plain(fs) && ActiveOk(fs, r) && (r.freshStamps ==> MarkerOk(fs, r))
  }

  /** What no call changes: the stock core and everything that is not the loader's. */
  ghost predicate OthersKept(a: FS, b: FS) {
    ChangesOnly(a, b, LOADER_PATHS)
  }

  const LOADER_PATHS: set<Path> := {Active, ActiveTmp, Custom, Staged, StagedDownload, Marker, MarkerTmp}

  lemma ChangesCompose(a: FS, b: FS, c: FS, paths: set<Path>)
    requires ChangesOnly(a, b, paths) && ChangesOnly(b, c, paths)
    ensures ChangesOnly(a, c, paths)
  {
  }

  /** An active path that is a link stays one; one that is something else is left alone. */
  predicate ActiveKept(a: FS, b: FS) {
    if IsLink(At(a, Active)) then IsLink(At(b, Active)) else At(a, Active).Some? ==> At(b, Active) == At(a, Active)
  }

  /** The marker, the custom file and the active link agree on a spec. */
  predicate Installed(fs: FS, decode: Content -> Option<CoreMarker>, spec: CoreSpec) {
    var m := MarkerIn(fs, decode);
    && m.Some? && m.value.url == spec.url && m.value.sha256 == spec.sha256
    && IsExecutable(At(fs, Custom)) && HasStamp(At(fs, Custom), m.value.size, m.value.mtime)
    && At(fs, Active) == Some(Link(Custom))
  }

  /** When a new custom file is put in place and the machine stops before the marker follows, the
      old spec still counts as installed exactly when the new file has the old one's stamp: this is
      why stamps have to be fresh. */
  lemma OldSpecStillInstalledIff(a: FS, b: FS, decode: Content -> Option<CoreMarker>, spec: CoreSpec)
    requires Installed(a, decode, spec) && ChangesOnly(a, b, {Staged, Custom}) && IsExecutable(At(b, Custom))
    ensures Installed(b, decode, spec) <==> StampOf(At(b, Custom).value) == StampOf(At(a, Custom).value)
  {
    assert MarkerIn(b, decode) == MarkerIn(a, decode);
  }

  lemma TemporaryKeepsGood(a: FS, r: Past, b: FS, r': Past)
    requires Good(a, r) && Later(r, r') && !IsLink(At(b, MarkerTmp))
    requires ChangesOnly(a, b, {ActiveTmp, Staged, StagedDownload, MarkerTmp})
    ensures Good(b, r')
  {
  }

  lemma NewCustomKeepsGood(a: FS, r: Past, b: FS, r': Past)
    requires Good(a, r) && Later(r, r') && ChangesOnly(a, b, {Staged, Custom})
    requires IsExecutable(At(b, Custom)) && Vetted(At(b, Custom).value.content, r')
    requires r.freshStamps ==> StampOf(At(b, Custom).value) !in r.used
    ensures Good(b, r')
  {
  }

  lemma NewLinkKeepsGood(a: FS, r: Past, b: FS, target: Path)
    requires Good(a, r) && ChangesOnly(a, b, {Active, ActiveTmp})
    requires At(b, Active) == At(a, Active) || At(b, Active) == Some(Link(target))
    requires target == Stock || target == Custom
    requires IsExecutable(At(a, target)) && (target == Custom ==> Vetted(At(a, target).value.content, r))
    ensures Good(b, r)
  {
  }

  lemma NewMarkerKeepsGood(a: FS, r: Past, b: FS, r': Past, m: CoreMarker)
    requires Good(a, r) && Later(r, r') && ChangesOnly(a, b, {Marker, MarkerTmp})
    requires !IsLink(At(b, MarkerTmp)) && IsFile(At(b, Marker))
    requires r.decode(At(b, Marker).value.content) == Some(m)
    requires HasStamp(At(a, Custom), m.size, m.mtime) && (m.size, m.mtime) in r.used
    requires r.sha256(At(a, Custom).value.content) == m.sha256
    ensures Good(b, r')
  {
  }

  /** Without the custom file or the marker, once the link is elsewhere. */
  lemma FewerKeepsGood(a: FS, r: Past, b: FS, p: Path)
    requires Good(a, r) && ChangesOnly(a, b, {p}) && (p == Marker || p == Custom)
    requires At(b, p) == None || At(b, p) == At(a, p)
    requires At(a, Active) == Some(Link(Stock))
    ensures Good(b, r)
  {
  }

  /** The active path is something the loader does not replace. */
  predicate ActiveTaken(fs: FS) {
    At(fs, Active).Some? && !IsLink(At(fs, Active))
  }

  /** The active link leads elsewhere than to the stock core. */
  predicate NeedsStock(fs: FS) {
    IsLink(At(fs, Active)) && At(fs, Active) != Some(Link(Stock))
  }

  /** The custom file, the active link and the marker are as they were. */
  predicate CoreKept(a: FS, b: FS) {
    At(b, Custom) == At(a, Custom) && At(b, Active) == At(a, Active) && At(b, Marker) == At(a, Marker)
  }

  /** A marker that was written can be read. */
  ghost predicate Encodes(d: Disk)
    reads d
  {
    forall m :: d.decode(d.encode(m)) == Some(m)
  }

  ghost predicate NoDirectories(fs: FS) {
    forall p: Path :: !p.Stock? && !p.Elsewhere? && !p.Active? ==> At(fs, p) != Some(Directory)
  }

  /** The active link leads to an executable file: the stock core, one of the administrator's, or a
      custom core that is vetted. */
  predicate LeadsToGoodCore(fs: FS, r: Past) {
    && IsLink(At(fs, Active))
    && IsExecutable(At(fs, At(fs, Active).value.target))
    && var t := At(fs, Active).value.target;
       t == Stock || t.Elsewhere? || (t == Custom && Vetted(At(fs, t).value.content, r))
  }

  lemma GoodLeads(fs: FS, r: Past)
    requires Good(fs, r)
    ensures IsLink(At(fs, Active)) ==> LeadsToGoodCore(fs, r)
    ensures forall spec :: r.freshStamps && Installed(fs, r.decode, spec) ==>
              r.sha256(At(fs, Custom).value.content) == spec.sha256
  {
  }

  /** A machine as it is installed, with the stock core alone: nothing stands in the way of a custom one. */
  lemma StockMachine(fs: FS, r: Past, stock: Content)
    requires fs == map[Stock := File(stock, true, 0), Active := Link(Stock)]
    ensures Good(fs, r) && NoDirectories(fs) && !ActiveTaken(fs) && !NeedsStock(fs)
    ensures LeadsToGoodCore(fs, r) && forall spec :: !Installed(fs, r.decode, spec)
  {
  }

  datatype Event =
    | Boot(faulty: bool)
    | Request(geodata: Json, served: Option<Content>, runs: bool)

  // ---------------------------------------------------------------- the steps

  class Loader {
    const disk: Disk
    const managed: bool
    const parseUrl: UrlParser

    constructor (disk: Disk, managed: bool, parseUrl: UrlParser)
      ensures this.disk == disk && this.managed == managed && this.parseUrl == parseUrl
    {
      this.disk := disk;
      this.managed := managed;
      this.parseUrl := parseUrl;
    }

    predicate Servable(served: Option<Content>, expected: Digest)
      reads disk
    {
      served.Some? && 0 < |served.value| <= MAX_SIZE && disk.sha256(served.value) == expected
    }

    /** Receives a body into the sibling file and checks it; an answer that is too long is cut one
        byte past the limit. */
    method Receive(served: Content, expected: Digest) returns (ok: bool)
      modifies disk`fs, disk`crashed, disk`used
      ensures ChangesOnly(old(disk.fs), disk.fs, {StagedDownload})
      ensures old(disk.used) <= disk.used
      ensures (old(disk.crashed) ==> disk.crashed && !ok) && (!disk.faulty ==> disk.crashed == old(disk.crashed))
      ensures ok ==> Servable(Some(served), expected)
      ensures At(disk.fs, StagedDownload) == At(old(disk.fs), StagedDownload) || IsFile(At(disk.fs, StagedDownload))
      ensures ok ==> IsFile(At(disk.fs, StagedDownload)) && disk.fs[StagedDownload].content == served
      ensures ok ==> StampOf(disk.fs[StagedDownload]) in disk.used
      ensures ok && disk.freshStamps ==> StampOf(disk.fs[StagedDownload]) !in old(disk.used)
      ensures !disk.faulty && !old(disk.crashed) && At(old(disk.fs), StagedDownload) == None ==>
                Servable(Some(served), expected) ==> ok
    {
      var failed := disk.CreateExclusive(StagedDownload);
      if failed {
        return false;
      }
      var body := if |served| <= MAX_SIZE then served else served[..MAX_SIZE + 1];
      failed := disk.WriteAll(StagedDownload, body);
      if failed || |body| > MAX_SIZE || |body| == 0 {
        return false;
      }
      failed := disk.Trouble(); // sync and close
      ok := !failed && disk.sha256(body) == expected;
    }

    /** Downloads to the staged path through a sibling file: the staged path changes only when the
        whole body is there and has the expected digest. */
    method Download(served: Option<Content>, expected: Digest) returns (ok: bool)
      modifies disk`fs, disk`crashed, disk`used, disk`downloads
      ensures disk.downloads <= old(disk.downloads) + 1
      ensures ChangesOnly(old(disk.fs), disk.fs, {Staged, StagedDownload}) && old(disk.used) <= disk.used
      ensures (old(disk.crashed) ==> disk.crashed && !ok) && (!disk.faulty ==> disk.crashed == old(disk.crashed))
      ensures if ok then At(disk.fs, StagedDownload) == None else At(disk.fs, Staged) == At(old(disk.fs), Staged)
      ensures ok ==> served.Some? && 0 < |served.value| <= 134217728 && disk.sha256(served.value) == expected
      ensures ok ==> IsFile(At(disk.fs, Staged)) && disk.fs[Staged].content == served.value
      ensures ok ==> StampOf(disk.fs[Staged]) in disk.used
      ensures ok && disk.freshStamps ==> StampOf(disk.fs[Staged]) !in old(disk.used)
      ensures !disk.faulty && !old(disk.crashed) && NoDirectories(old(disk.fs)) ==>
                served.Some? && 0 < |served.value| <= 134217728 && disk.sha256(served.value) == expected ==> ok
      // nothing is left of a download that was begun
      ensures !disk.faulty && !old(disk.crashed) && served.Some? && NoDirectories(old(disk.fs)) ==>
                At(disk.fs, StagedDownload) == None
    {
      disk.downloads := disk.downloads + 1;
      if served.None? {
        return false;
      }
      var failed := disk.Remove(StagedDownload);
      if failed {
        return false;
      }
      var ready := Receive(served.value, expected);
      ok := false;
      if ready {
        failed := disk.Rename(StagedDownload, Staged);
        ok := !failed;
      }
      if !ok {
        var _ := disk.Remove(StagedDownload);
      }
    }

    /** Runs the staged core to read its version; `runs` is how that turns out if it gets that far. */
    method ReadVersion(runs: bool) returns (ok: bool)
      requires IsExecutable(At(disk.fs, Staged))
      modifies disk`crashed, disk`probed
      ensures (old(disk.crashed) ==> disk.crashed && !ok) && (!disk.faulty ==> disk.crashed == old(disk.crashed))
      ensures disk.probed == old(disk.probed) + if ok then {At(disk.fs, Staged).value.content} else {}
      ensures ok ==> runs
      ensures !disk.faulty && !old(disk.crashed) && runs ==> ok
    {
      var failed := disk.Trouble();
      ok := !failed && runs;
      if ok {
        disk.probed := disk.probed + {At(disk.fs, Staged).value.content};
      }
    }

    method IsInstalled(spec: CoreSpec) returns (yes: bool)
      modifies disk`crashed
      ensures yes ==> Installed(disk.fs, disk.decode, spec)
      ensures (old(disk.crashed) ==> disk.crashed) && (!disk.faulty ==> disk.crashed == old(disk.crashed))
      ensures !disk.faulty && !old(disk.crashed) ==> yes == Installed(disk.fs, disk.decode, spec)
    {
      var failed := disk.Trouble();
      if failed || !IsFile(At(disk.fs, Marker)) {
        return false;
      }
      var marker := disk.decode(At(disk.fs, Marker).value.content);
      if marker.None? || marker.value.url != spec.url || marker.value.sha256 != spec.sha256 {
        return false;
      }
      failed := disk.Trouble();
      var info := At(disk.fs, Custom);
      if failed || !IsFile(info) || !info.value.exec || |info.value.content| != marker.value.size
         || info.value.mtime != marker.value.mtime {
        return false;
      }
      failed := disk.Trouble();
      if failed || !IsLink(At(disk.fs, Active)) {
        return false;
      }
      return At(disk.fs, Active).value.target == Custom;
    }

    /** Switches the active link in one step. */
    method PointLinkAt(target: Path) returns (ok: bool)
      modifies disk`fs, disk`crashed
      ensures ChangesOnly(old(disk.fs), disk.fs, {Active, ActiveTmp})
      ensures (old(disk.crashed) ==> disk.crashed && !ok) && (!disk.faulty ==> disk.crashed == old(disk.crashed))
      ensures At(disk.fs, Active) == if ok then Some(Link(target)) else At(old(disk.fs), Active)
      ensures !disk.faulty && !old(disk.crashed) && At(old(disk.fs), ActiveTmp) != Some(Directory) ==>
                At(old(disk.fs), Active) != Some(Directory) ==> ok
    {
      var _ := disk.Remove(ActiveTmp);
      var failed := disk.Symlink(target, ActiveTmp);
      if failed {
        return false;
      }
      failed := disk.Rename(ActiveTmp, Active);
      if failed {
        var _ := disk.Remove(ActiveTmp);
        return false;
      }
      return true;
    }

    method WriteMarkerAtomic(marker: CoreMarker) returns (ok: bool)
      requires !IsLink(At(disk.fs, MarkerTmp))
      modifies disk`fs, disk`crashed, disk`used
      ensures ChangesOnly(old(disk.fs), disk.fs, {Marker, MarkerTmp}) && !IsLink(At(disk.fs, MarkerTmp))
      ensures old(disk.used) <= disk.used
      ensures (old(disk.crashed) ==> disk.crashed && !ok) && (!disk.faulty ==> disk.crashed == old(disk.crashed))
      ensures if ok then IsFile(At(disk.fs, Marker)) && At(disk.fs, Marker).value.content == disk.encode(marker)
              else At(disk.fs, Marker) == At(old(disk.fs), Marker)
      ensures !disk.faulty && !old(disk.crashed) && At(old(disk.fs), MarkerTmp) != Some(Directory) ==>
                At(old(disk.fs), Marker) != Some(Directory) ==> ok
    {
      var failed := disk.WriteAll(MarkerTmp, disk.encode(marker));
      if failed {
        return false;
      }
      failed := disk.Rename(MarkerTmp, Marker);
      if failed {
        var _ := disk.Remove(MarkerTmp);
        return false;
      }
      return true;
    }

    /** The contract shared by everything that changes the disk: all that was built up stays, whether
        the call ends well, fails, or the machine stops in the middle. */
    twostate predicate Keeps()
      reads disk
    {
      && Good(disk.fs, disk.Now()) && Later(old(disk.Now()), disk.Now())
      && OthersKept(old(disk.fs), disk.fs) && ActiveKept(old(disk.fs), disk.fs)
      && (old(disk.crashed) ==> disk.crashed) && (!disk.faulty ==> disk.crashed == old(disk.crashed))
      && disk.faulty == old(disk.faulty)
    }

    /** Makes a staged, checked download executable, probes it and puts it in place; `before` is the
        past the download started from. */
    method Promote(spec: CoreSpec, runs: bool, ghost before: Past) returns (ok: bool)
      requires Good(disk.fs, before) && Later(before, disk.Now()) && spec.sha256 in disk.wanted
      requires IsFile(At(disk.fs, Staged)) && disk.sha256(At(disk.fs, Staged).value.content) == spec.sha256
      requires StampOf(At(disk.fs, Staged).value) in disk.used
      requires disk.freshStamps ==> StampOf(At(disk.fs, Staged).value) !in before.used
      modifies disk`fs, disk`crashed, disk`probed
      ensures At(disk.fs, Staged) != Some(Directory)
      ensures Good(disk.fs, disk.Now()) && Later(old(disk.Now()), disk.Now())
      ensures ChangesOnly(old(disk.fs), disk.fs, {Staged, Custom})
      ensures (old(disk.crashed) ==> disk.crashed && !ok) && (!disk.faulty ==> disk.crashed == old(disk.crashed))
      ensures ok ==> IsExecutable(At(disk.fs, Custom)) && disk.sha256(At(disk.fs, Custom).value.content) == spec.sha256
      ensures ok ==> At(disk.fs, Custom).value.content in disk.probed && StampOf(At(disk.fs, Custom).value) in disk.used
      ensures if ok then runs else At(disk.fs, Custom) == At(old(disk.fs), Custom)
      ensures !disk.faulty && !old(disk.crashed) && NoDirectories(old(disk.fs)) && runs ==> ok && NoDirectories(disk.fs)
    {
      hide ActiveOk, MarkerOk;
      ghost var fs0, r0 := disk.fs, disk.Now();
      var failed := disk.Chmod(Staged);
      ghost var fs1 := disk.fs;
      TemporaryKeepsGood(fs0, before, fs1, before);
      ok := false;
      if !failed {
        ok := ReadVersion(runs);
      }
      ghost var r1 := disk.Now();
      if ok {
        failed := disk.Rename(Staged, Custom);
        ok := !failed;
      }
      if ok {
        NewCustomKeepsGood(fs1, before, disk.fs, r1);
      } else {
        TemporaryKeepsGood(fs1, before, disk.fs, r1);
      }
    }

    /** Switches the link to the custom core and leaves the marker. */
    method Activate(spec: CoreSpec) returns (ok: bool)
      requires Encodes(disk) && Good(disk.fs, disk.Now()) && !ActiveTaken(disk.fs)
      requires IsExecutable(At(disk.fs, Custom)) && disk.sha256(At(disk.fs, Custom).value.content) == spec.sha256
      requires Vetted(At(disk.fs, Custom).value.content, disk.Now()) && StampOf(At(disk.fs, Custom).value) in disk.used
      modifies disk`fs, disk`crashed, disk`used
      ensures Good(disk.fs, disk.Now()) && Later(old(disk.Now()), disk.Now())
      ensures ChangesOnly(old(disk.fs), disk.fs, {Active, ActiveTmp, Marker, MarkerTmp})
      ensures ActiveKept(old(disk.fs), disk.fs)
      ensures (old(disk.crashed) ==> disk.crashed && !ok) && (!disk.faulty ==> disk.crashed == old(disk.crashed))
      ensures ok ==> Installed(disk.fs, disk.decode, spec)
      ensures !disk.faulty && !old(disk.crashed) && NoDirectories(old(disk.fs)) ==> ok
    {
      hide ActiveOk, MarkerOk;
      var pointed := PointLinkAt(Custom);
      ghost var fs1, r1 := disk.fs, disk.Now();
      NewLinkKeepsGood(old(disk.fs), r1, fs1, Custom);
      if !pointed {
        return false;
      }
      var failed := disk.Trouble(); // stat
      if failed {
        return false;
      }
      var info := At(disk.fs, Custom).value;
      var marker := CoreMarker(spec.url, disk.sha256(info.content), |info.content|, info.mtime);
      ok := WriteMarkerAtomic(marker);
      if ok {
        NewMarkerKeepsGood(fs1, r1, disk.fs, disk.Now(), marker);
      } else {
        TemporaryKeepsGood(fs1, r1, disk.fs, disk.Now());
      }
    }

    /** Checks that the active path may be replaced, and downloads. */
    method Fetch(spec: CoreSpec, served: Option<Content>) returns (ok: bool)
      requires Good(disk.fs, disk.Now())
      modifies disk`fs, disk`crashed, disk`used, disk`downloads
      ensures disk.downloads <= old(disk.downloads) + 1
      ensures Good(disk.fs, old(disk.Now())) && Later(old(disk.Now()), disk.Now())
      ensures ChangesOnly(old(disk.fs), disk.fs, {Staged, StagedDownload})
      ensures (old(disk.crashed) ==> disk.crashed && !ok) && (!disk.faulty ==> disk.crashed == old(disk.crashed))
      ensures ok ==> !ActiveTaken(disk.fs) && Servable(served, spec.sha256)
      ensures ok ==> IsFile(At(disk.fs, Staged)) && disk.sha256(At(disk.fs, Staged).value.content) == spec.sha256
      ensures ok ==> StampOf(At(disk.fs, Staged).value) in disk.used
      ensures ok && disk.freshStamps ==> StampOf(At(disk.fs, Staged).value) !in old(disk.used)
      ensures !disk.faulty && !old(disk.crashed) && NoDirectories(old(disk.fs)) ==>
                !ActiveTaken(old(disk.fs)) && Servable(served, spec.sha256) ==> ok && NoDirectories(disk.fs)
      ensures !disk.faulty && !old(disk.crashed) && NoDirectories(old(disk.fs)) && !ActiveTaken(old(disk.fs)) && !ok ==>
                At(disk.fs, Staged) == None
    {
      hide ActiveOk, MarkerOk;
      var failed := disk.Trouble(); // lstat
      if failed || ActiveTaken(disk.fs) {
        return false;
      }
      failed := disk.Remove(Staged);
      if !failed {
        ok := Download(served, spec.sha256);
      } else {
        ok := false;
      }
      TemporaryKeepsGood(old(disk.fs), old(disk.Now()), disk.fs, old(disk.Now()));
    }

    /** From a staged, checked download to an installed core; what is left of the download goes. */
    method Finish(spec: CoreSpec, runs: bool, ghost before: Past) returns (ok: bool)
      requires Encodes(disk) && Good(disk.fs, before) && Later(before, disk.Now()) && spec.sha256 in disk.wanted
      requires IsFile(At(disk.fs, Staged)) && disk.sha256(At(disk.fs, Staged).value.content) == spec.sha256
      requires StampOf(At(disk.fs, Staged).value) in disk.used && !ActiveTaken(disk.fs)
      requires disk.freshStamps ==> StampOf(At(disk.fs, Staged).value) !in before.used
      modifies disk`fs, disk`crashed, disk`used, disk`probed
      ensures Keeps()
      ensures ok ==> Installed(disk.fs, disk.decode, spec)
      ensures !runs ==> CoreKept(old(disk.fs), disk.fs)
      ensures !disk.faulty && !old(disk.crashed) && NoDirectories(old(disk.fs)) && runs ==> ok
      ensures !disk.faulty && !old(disk.crashed) ==> At(disk.fs, Staged) == None
    {
      hide ActiveOk, MarkerOk, NoDirectories, Plain;
      ok := Promote(spec, runs, before);
      ghost var fs1 := disk.fs;
      if ok {
        ok := Activate(spec);
      }
      ghost var fs2 := disk.fs;
      ChangesCompose(old(disk.fs), fs1, fs2, LOADER_PATHS);
      PlainMarker(fs2);
      var _ := disk.Remove(Staged);
      TemporaryKeepsGood(fs2, disk.Now(), disk.fs, disk.Now());
    }

    method Install(spec: CoreSpec, served: Option<Content>, runs: bool) returns (ok: bool)
      requires Encodes(disk) && Good(disk.fs, disk.Now())
      modifies disk`fs, disk`crashed, disk`used, disk`probed, disk`wanted, disk`downloads
      ensures disk.downloads <= old(disk.downloads) + 1
      ensures Keeps()
      ensures ok ==> Installed(disk.fs, disk.decode, spec)
      ensures !(Servable(served, spec.sha256) && runs) ==> CoreKept(old(disk.fs), disk.fs)
      ensures !disk.faulty && !old(disk.crashed) && NoDirectories(old(disk.fs)) && !ActiveTaken(old(disk.fs)) ==>
                Servable(served, spec.sha256) && runs ==> ok
      ensures !disk.faulty && !old(disk.crashed) && NoDirectories(old(disk.fs)) && !ActiveTaken(old(disk.fs)) ==>
                At(disk.fs, Staged) == None
    {
      hide ActiveOk, MarkerOk, NoDirectories, Plain;
      PlainMarker(disk.fs);
      disk.wanted := disk.wanted + {spec.sha256};
      ghost var r0 := disk.Now();
      TemporaryKeepsGood(disk.fs, old(disk.Now()), disk.fs, r0);
      ok := Fetch(spec, served);
      ghost var fs1 := disk.fs;
      if ok {
        ok := Finish(spec, runs, r0);
        ChangesCompose(old(disk.fs), fs1, disk.fs, LOADER_PATHS);
      } else {
        PlainMarker(fs1);
        TemporaryKeepsGood(fs1, r0, fs1, disk.Now());
      }
    }

    /** Points the link at the stock core, then drops the marker and the custom file. */
    method SwitchToStock() returns (failed: bool)
      requires Good(disk.fs, disk.Now()) && IsLink(At(disk.fs, Active)) && IsExecutable(At(disk.fs, Stock))
      modifies disk`fs, disk`crashed
      ensures Keeps()
      ensures if failed then ChangesOnly(old(disk.fs), disk.fs, {ActiveTmp})
              else At(disk.fs, Active) == Some(Link(Stock))
      ensures !disk.faulty && !old(disk.crashed) && NoDirectories(old(disk.fs)) ==>
                !failed && At(disk.fs, Marker) == None && At(disk.fs, Custom) == None
    {
      hide ActiveOk, MarkerOk;
      var pointed := PointLinkAt(Stock);
      ghost var fs1 := disk.fs;
      NewLinkKeepsGood(old(disk.fs), disk.Now(), fs1, Stock);
      if !pointed {
        return true;
      }
      var _ := disk.Remove(Marker);
      ghost var fs2 := disk.fs;
      FewerKeepsGood(fs1, disk.Now(), fs2, Marker);
      var _ := disk.Remove(Custom);
      FewerKeepsGood(fs2, disk.Now(), disk.fs, Custom);
      return false;
    }

    /** True stands for an error. */
    method RestoreStock() returns (failed: bool)
      requires Good(disk.fs, disk.Now())
      modifies disk`fs, disk`crashed
      ensures Keeps()
      ensures !failed && !disk.faulty && !old(disk.crashed) && IsLink(At(old(disk.fs), Active)) ==>
                At(disk.fs, Active) == Some(Link(Stock))
      ensures !disk.faulty && !old(disk.crashed) && NoDirectories(old(disk.fs)) ==>
                (failed <==> NeedsStock(old(disk.fs)) && !IsExecutable(At(old(disk.fs), Stock)))
      ensures !disk.faulty && !old(disk.crashed) && NoDirectories(old(disk.fs)) && NeedsStock(old(disk.fs)) ==>
                !failed ==> At(disk.fs, Marker) == None && At(disk.fs, Custom) == None
      ensures failed && !disk.faulty ==> ChangesOnly(old(disk.fs), disk.fs, {ActiveTmp})
    {
      hide ActiveOk, MarkerOk, Plain, NoDirectories;
      var trouble := disk.Trouble(); // readlink
      if trouble {
        trouble := disk.Trouble(); // lstat
        return !trouble && IsLink(At(disk.fs, Active));
      }
      if !IsLink(At(disk.fs, Active)) {
        return false;
      }
      if At(disk.fs, Active).value.target == Stock {
        return false;
      }
      trouble := disk.Trouble(); // stat
      if trouble || !IsExecutable(At(disk.fs, Stock)) {
        return true;
      }
      failed := SwitchToStock();
    }

    /** Prepares the core for a request's geodata; `served` is what the URL gives and `runs` how the
        version probe turns out.  True stands for an error. */
    method Prepare(geodata: Json, served: Option<Content>, runs: bool)
      returns (failed: bool, ghost request: CoreRequest)
      requires Encodes(disk) && Good(disk.fs, disk.Now())
      modifies disk`fs, disk`crashed, disk`used, disk`probed, disk`wanted, disk`downloads
      ensures Requests(geodata, parseUrl, request)
      ensures disk.downloads <= old(disk.downloads) + 1
      ensures Keeps()
      ensures !managed || request.Invalid? ==> disk.fs == old(disk.fs) && !failed
      ensures managed && request.Wanted? ==> !failed
      // without a custom core in the request the link goes back to the stock core
      ensures managed && request.NoCore? && !disk.faulty && !old(disk.crashed) && NoDirectories(old(disk.fs)) ==>
                var custom := IsLink(At(old(disk.fs), Active)) && At(old(disk.fs), Active) != Some(Link(Stock));
                && (failed <==> custom && !IsExecutable(At(old(disk.fs), Stock)))
                && (custom && !failed ==>
                      At(disk.fs, Active) == Some(Link(Stock))
                      && At(disk.fs, Marker) == None && At(disk.fs, Custom) == None)
      // a core that is already there is not downloaded again
      ensures managed && request.Wanted? && !disk.faulty && !old(disk.crashed)
              && Installed(old(disk.fs), disk.decode, request.spec) ==>
                disk.fs == old(disk.fs) && disk.downloads == old(disk.downloads)
      // when all goes well the wanted core is there
      ensures managed && request.Wanted? && !disk.faulty && !old(disk.crashed)
              && NoDirectories(old(disk.fs)) && !ActiveTaken(old(disk.fs))
              && served.Some? && 0 < |served.value| <= 134217728
              && disk.sha256(served.value) == request.spec.sha256 && runs ==>
                && At(disk.fs, Active) == Some(Link(Custom)) && IsExecutable(At(disk.fs, Custom))
                && Installed(disk.fs, disk.decode, request.spec)
      // a core that is not what was asked for, or does not run, leaves the active one alone
      ensures request.Wanted? && !(Servable(served, request.spec.sha256) && runs) ==>
                CoreKept(old(disk.fs), disk.fs)
    {
      hide Requests;
      var parsed := ParseCoreSpec(geodata, parseUrl);
      request := parsed;
      failed := false;
      if parsed.Invalid? || !managed {
        return;
      }
      if parsed.NoCore? {
        failed := RestoreStock();
        return;
      }
      var installed := IsInstalled(parsed.spec);
      if installed {
        return;
      }
      var _ := Install(parsed.spec, served, runs);
    }

    /** A second request for the same core does not download again, whatever the network would give. */
    method PrepareTwice(geodata: Json, ghost spec: CoreSpec, served: Option<Content>, later: Option<Content>,
                        runs: bool)
      requires Requests(geodata, parseUrl, Wanted(spec))
      requires Encodes(disk) && Good(disk.fs, disk.Now()) && managed && !disk.faulty && !disk.crashed
      requires NoDirectories(disk.fs) && !ActiveTaken(disk.fs) && Servable(served, spec.sha256)
      modifies disk`fs, disk`crashed, disk`used, disk`probed, disk`wanted, disk`downloads
      ensures disk.downloads <= old(disk.downloads) + 1
      ensures Installed(disk.fs, disk.decode, spec)
      ensures disk.freshStamps ==> disk.sha256(At(disk.fs, Custom).value.content) == spec.sha256
    {
      hide ActiveOk, Plain, Requests;
      var _, first := Prepare(geodata, served, true);
      RequestIsUnique(geodata, parseUrl, first, Wanted(spec));
      ghost var once := disk.downloads;
      var _, second := Prepare(geodata, later, runs);
      RequestIsUnique(geodata, parseUrl, second, Wanted(spec));
      assert disk.downloads == once;
    }

    /** Any run: boots into good and bad environments, and requests, each of which may fail or be cut
        off by a crash between any two calls on the file system.  An active link that leads to an
        executable core always does. */
    method Run(events: seq<Event>)
      requires Encodes(disk) && Good(disk.fs, disk.Now())
      modifies disk
      ensures Good(disk.fs, disk.Now()) && Later(old(disk.Now()), disk.Now())
      ensures OthersKept(old(disk.fs), disk.fs) && ActiveKept(old(disk.fs), disk.fs)
      ensures IsLink(At(old(disk.fs), Active)) ==> LeadsToGoodCore(disk.fs, disk.Now())
      ensures forall spec :: disk.freshStamps && Installed(disk.fs, disk.decode, spec) ==>
                disk.sha256(At(disk.fs, Custom).value.content) == spec.sha256
    {
      hide Good;
      for i := 0 to |events|
        invariant Good(disk.fs, disk.Now()) && Later(old(disk.Now()), disk.Now())
        invariant OthersKept(old(disk.fs), disk.fs) && ActiveKept(old(disk.fs), disk.fs)
      {
        match events[i]
        case Boot(faulty) =>
          disk.Boot(faulty);
        case Request(geodata, served, runs) =>
          ghost var before := disk.fs;
          var _, _ := Prepare(geodata, served, runs);
          ChangesCompose(old(disk.fs), before, disk.fs, LOADER_PATHS);
      }
      GoodLeads(disk.fs, disk.Now());
    }
  }
}
