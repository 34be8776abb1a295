/** The collector of tool configurations: registered paths first, then the
    built-in ones, each path once, within a cap per file and a cap in total. */
module ToolConf {
  import opened Wrappers

  type Bytes = seq<nat>

  const FILE_CAP := 0x4_0000
  const TOTAL_CAP := 0xC_0000

  /** os.Stat followed by os.ReadFile. */
  datatype Entry = Missing(error: string) | Directory | File(modTime: int, size: nat, contents: Result<Bytes, string>)

  datatype Candidate = Candidate(tool: string, path: string, registered: bool)

  datatype ConfFile = ConfFile(tool: string, path: string, modTime: int, size: nat, registered: bool,
                               content: Bytes, truncated: bool, err: Option<string>)

  const IS_DIRECTORY := "directory"

  ghost function Total(files: seq<ConfFile>): nat {
    if files == [] then 0 else Total(files[..|files| - 1]) + |files[|files| - 1].content|
  }

  ghost predicate DistinctPaths(files: seq<ConfFile>) {
    forall i, j | 0 <= i < j < |files| :: files[i].path != files[j].path
  }

  ghost predicate Emitted(files: seq<ConfFile>, path: string) {
    exists i :: 0 <= i < |files| && files[i].path == path
  }

  ghost predicate Registered(cands: seq<Candidate>, path: string) {
    exists i :: 0 <= i < |cands| && cands[i].registered && cands[i].path == path
  }

  function Min(a: int, b: int): int {
    if a <= b then a else b
  }

  /** A readable file is reported with the longest prefix that 256 KiB a file and 768 KiB in all still allow
      when `total` bytes have been collected already. */
  ghost predicate CutTo(fs: string -> Entry, f: ConfFile, total: nat) {
    && total <= 786_432
    && match fs(f.path)
       case File(_, _, Ok(data)) =>
         f.content <= data && |f.content| == Min(|data|, Min(262_144, 786_432 - total))
       case _ => true
  }

  /** What a reported file says is what the file system says. */
  ghost predicate Faithful(fs: string -> Entry, f: ConfFile) {
    match fs(f.path)
    case Missing(e) => f.registered && f.err == Some(e) && f.content == [] && !f.truncated
    case Directory => f.registered && f.err == Some(IS_DIRECTORY) && f.content == [] && !f.truncated
    case File(m, size, Err(e)) => f.modTime == m && f.size == size && f.err == Some(e) && f.content == []
        && !f.truncated
    case File(m, size, Ok(data)) =>
      && f.modTime == m && f.size == size && f.err == None
      && f.content <= data && |f.content| <= FILE_CAP
      && (f.truncated <==> f.content != data)
  }

  /** Whether a candidate is worth reporting at all. */
  predicate Reportable(fs: string -> Entry, c: Candidate) {
    c.registered || fs(c.path).File?
  }

  /** The first reportable candidate naming a path is the one that reports it. */
  ghost predicate ClaimedBy(fs: string -> Entry, cands: seq<Candidate>, f: ConfFile, i: nat) {
    && i < |cands| && f.tool == cands[i].tool && f.path == cands[i].path && f.registered == cands[i].registered
    && Reportable(fs, cands[i])
    && forall j | 0 <= j < i :: cands[j].path == f.path ==> !Reportable(fs, cands[j])
  }

  ghost predicate Claimed(fs: string -> Entry, cands: seq<Candidate>, f: ConfFile) {
    exists i :: ClaimedBy(fs, cands, f, i)
  }

  /** Files are reported in the order of the candidates that claim them. */
  ghost predicate InOrder(fs: string -> Entry, cands: seq<Candidate>, files: seq<ConfFile>) {
    forall a, b, i, j | 0 <= a < b < |files| && ClaimedBy(fs, cands, files[a], i)
        && ClaimedBy(fs, cands, files[b], j) :: i < j
  }

  lemma OrderKept(fs: string -> Entry, cands: seq<Candidate>, files: seq<ConfFile>, n: nat, f: ConfFile)
    requires n < |cands| && InOrder(fs, cands, files) && ClaimedBy(fs, cands, f, n)
    requires forall i | 0 <= i < |files| :: Named(fs, cands, n, files[i].path)
    ensures InOrder(fs, cands, files + [f])
  {
    var more := files + [f];
    forall a, b, i: nat, j: nat | 0 <= a < b < |more| && ClaimedBy(fs, cands, more[a], i)
        && ClaimedBy(fs, cands, more[b], j)
      ensures i < j
    {
      assert more[a] == files[a];
      if b == |files| {
        assert Named(fs, cands, n, files[a].path);
        assert j == n;
      }
    }
  }

  /** One of the first n candidates names the path and has something to report. */
  ghost predicate Named(fs: string -> Entry, cands: seq<Candidate>, n: nat, path: string)
    requires n <= |cands|
  {
    exists j :: 0 <= j < n && cands[j].path == path && Reportable(fs, cands[j])
  }

  /** The list so far. */
  ghost predicate Collected(fs: string -> Entry, cands: seq<Candidate>, files: seq<ConfFile>, n: nat)
    requires n <= |cands|
  {
    && DistinctPaths(files) && InOrder(fs, cands, files)
    && (forall i | 0 <= i < |files| :: Faithful(fs, files[i]) && Claimed(fs, cands, files[i]))
    && (forall i | 0 <= i < |files| :: CutTo(fs, files[i], Total(files[..i])))
    && (forall j | 0 <= j < n :: Reportable(fs, cands[j]) ==> Emitted(files, cands[j].path))
    && (forall i | 0 <= i < |files| :: Named(fs, cands, n, files[i].path))
  }

  lemma NothingCollected(fs: string -> Entry, cands: seq<Candidate>)
    ensures Collected(fs, cands, [], 0) && Total([]) == 0 && forall p :: !Emitted([], p)
  {
  }

  lemma TotalAppend(files: seq<ConfFile>, f: ConfFile)
    ensures Total(files + [f]) == Total(files) + |f.content|
  {
    assert (files + [f])[..|files|] == files;
  }

  lemma ClaimedNext(fs: string -> Entry, cands: seq<Candidate>, files: seq<ConfFile>, n: nat, f: ConfFile)
    requires n < |cands| && Collected(fs, cands, files, n) && !Emitted(files, cands[n].path) && Reportable(fs, cands[n])
    requires f.tool == cands[n].tool && f.path == cands[n].path && f.registered == cands[n].registered
    ensures ClaimedBy(fs, cands, f, n)
  {
    hide CutTo, Faithful, Total, InOrder, Claimed;
  }

  /** One more report, for a path not reported yet. */
  lemma ReportedNext(fs: string -> Entry, cands: seq<Candidate>, files: seq<ConfFile>, n: nat, f: ConfFile)
    requires n < |cands| && Collected(fs, cands, files, n) && !Emitted(files, cands[n].path)
    requires Reportable(fs, cands[n]) && Faithful(fs, f) && CutTo(fs, f, Total(files))
    requires f.tool == cands[n].tool && f.path == cands[n].path && f.registered == cands[n].registered
    ensures Collected(fs, cands, files + [f], n + 1)
  {
    hide CutTo, Faithful, Total, InOrder, ClaimedBy;
    var more := files + [f];
    ClaimedNext(fs, cands, files, n, f);
    OrderKept(fs, cands, files, n, f);
    forall i | 0 <= i < |more| ensures CutTo(fs, more[i], Total(more[..i])) {
      assert more[..i] == if i < |files| then files[..i] else files;
    }
    forall j | 0 <= j <= n && Reportable(fs, cands[j]) ensures Emitted(more, cands[j].path) {
      if j < n {
        var i :| 0 <= i < |files| && files[i].path == cands[j].path;
        assert more[i].path == cands[j].path;
      } else {
        assert more[|files|].path == cands[j].path;
      }
    }
    forall i | 0 <= i < |more| ensures Named(fs, cands, n + 1, more[i].path) {
      if i < |files| {
        assert more[i] == files[i];
        var j :| 0 <= j < n && cands[j].path == files[i].path && Reportable(fs, cands[j]);
        assert 0 <= j < n + 1;
      } else {
        assert cands[n].path == more[i].path;
      }
    }
  }

  /** A candidate that is skipped: its path is reported already, or it has nothing to report. */
  lemma SkippedNext(fs: string -> Entry, cands: seq<Candidate>, files: seq<ConfFile>, n: nat)
    requires n < |cands| && Collected(fs, cands, files, n)
    requires Reportable(fs, cands[n]) ==> Emitted(files, cands[n].path)
    ensures Collected(fs, cands, files, n + 1)
  {
    forall i | 0 <= i < |files| ensures Named(fs, cands, n + 1, files[i].path) {
      assert Named(fs, cands, n, files[i].path);
      var j :| 0 <= j < n && cands[j].path == files[i].path && Reportable(fs, cands[j]);
      assert 0 <= j < n + 1;
    }
  }

  /** A registered path that is not a readable file is reported with its error. */
  lemma NothingToRead(fs: string -> Entry, f: ConfFile, total: nat)
    requires !fs(f.path).File? && total <= TOTAL_CAP && f.registered && f.content == [] && !f.truncated
    requires f.err == Some(if fs(f.path).Missing? then fs(f.path).error else IS_DIRECTORY)
    ensures Faithful(fs, f) && CutTo(fs, f, total)
  {
  }

  /** One candidate's file, read and cut to what is left. */
  method ReadConf(c: Candidate, e: Entry, total: nat, ghost fs: string -> Entry) returns (f: ConfFile)
    requires e == fs(c.path) && e.File? && total <= TOTAL_CAP
    ensures f.tool == c.tool && f.path == c.path && f.registered == c.registered
    ensures Faithful(fs, f) && CutTo(fs, f, total)
    ensures total + |f.content| <= TOTAL_CAP
  {
    f := ConfFile(c.tool, c.path, e.modTime, e.size, c.registered, [], false, None);
    match e.contents
    case Err(msg) =>
      f := f.(err := Some(msg));
    case Ok(all) =>
      var data := all;
      if |data| > FILE_CAP {
        data := data[..FILE_CAP];
        f := f.(truncated := true);
      }
      if total + |data| > TOTAL_CAP {
        data := data[..TOTAL_CAP - total];
        f := f.(truncated := true);
      }
      f := f.(content := data);
  }

  /** The scan. It stops early only when the total cap is reached exactly. */
  method Scan(cands: seq<Candidate>, fs: string -> Entry) returns (files: seq<ConfFile>, scanned: nat)
    ensures scanned <= |cands| && Collected(fs, cands, files, scanned)
    ensures Total(files) <= TOTAL_CAP
    ensures scanned < |cands| ==> Total(files) == TOTAL_CAP
  {
    hide Collected, Emitted, Total, Faithful, CutTo;
    files, scanned := [], 0;
    NothingCollected(fs, cands);
    var total := 0;
    var seen: set<string> := {};
    while scanned < |cands|
      invariant scanned <= |cands| && Collected(fs, cands, files, scanned)
      invariant forall p :: p in seen <==> Emitted(files, p)
      invariant total == Total(files) <= TOTAL_CAP
    {
      var c := cands[scanned];
      if c.path in seen {
        SkippedNext(fs, cands, files, scanned);
        scanned := scanned + 1;
        continue;
      }
      var e := fs(c.path);
      if !e.File? {
        if c.registered {
          var msg := if e.Missing? then e.error else IS_DIRECTORY;
          var f := ConfFile(c.tool, c.path, 0, 0, true, [], false, Some(msg));
          NothingToRead(fs, f, total);
          files, seen := Report(fs, cands, files, scanned, seen, f);
        } else {
          SkippedNext(fs, cands, files, scanned);
        }
        scanned := scanned + 1;
        continue;
      }
      var f := ReadConf(c, e, total, fs);
      files, seen := Report(fs, cands, files, scanned, seen, f);
      total := total + |f.content|;
      scanned := scanned + 1;
      if total >= TOTAL_CAP {
        break;
      }
    }
  }

  method Report(fs: string -> Entry, cands: seq<Candidate>, files: seq<ConfFile>, n: nat, seen: set<string>,
      f: ConfFile)
    returns (files': seq<ConfFile>, seen': set<string>)
    requires n < |cands| && Collected(fs, cands, files, n) && !Emitted(files, cands[n].path)
    requires Reportable(fs, cands[n]) && Faithful(fs, f) && CutTo(fs, f, Total(files))
    requires f.tool == cands[n].tool && f.path == cands[n].path && f.registered == cands[n].registered
    requires forall p :: p in seen <==> Emitted(files, p)
    ensures files' == files + [f] && Collected(fs, cands, files', n + 1)
    ensures forall p :: p in seen' <==> Emitted(files', p)
    ensures Total(files') == Total(files) + |f.content|
  {
    ReportedNext(fs, cands, files, n, f);
    TotalAppend(files, f);
    files', seen' := files + [f], seen + {f.path};
    forall p ensures p in seen' <==> Emitted(files', p) {
      if Emitted(files, p) {
        var i :| 0 <= i < |files| && files[i].path == p;
        assert files'[i].path == p;
      }
      assert files'[|files|].path == f.path;
    }
  }

  ghost predicate RegisteredFirst(cands: seq<Candidate>) {
    forall i, j | 0 <= i < j < |cands| && cands[j].registered :: cands[i].registered
  }

  function FromRegistry(registry: seq<(string, string)>): seq<Candidate> {
    if registry == [] then []
    else
      var (alias, conf) := registry[|registry| - 1];
      FromRegistry(registry[..|registry| - 1]) + (if conf != "" then [Candidate(alias, conf, true)] else [])
  }

  function FromBuiltins(builtins: seq<(string, string)>): seq<Candidate> {
    if builtins == [] then []
    else
      var (tool, path) := builtins[|builtins| - 1];
      FromBuiltins(builtins[..|builtins| - 1]) + [Candidate(tool, path, false)]
  }

  /** collectToolConf: the registry's entries with a path, then the built-ins. */
  method CollectToolConf(registry: seq<(string, string)>, builtins: seq<(string, string)>, fs: string -> Entry)
    returns (files: seq<ConfFile>, ghost cands: seq<Candidate>)
    ensures cands == FromRegistry(registry) + FromBuiltins(builtins) && RegisteredFirst(cands)
    ensures forall p :: Registered(cands, p) <==> p != "" && exists i :: 0 <= i < |registry| && registry[i].1 == p
    ensures DistinctPaths(files) && InOrder(fs, cands, files) && Total(files) <= 786_432
    ensures forall i | 0 <= i < |files| :: Faithful(fs, files[i]) && Claimed(fs, cands, files[i])
    ensures forall i | 0 <= i < |files| :: CutTo(fs, files[i], Total(files[..i]))
    ensures forall i | 0 <= i < |files| :: files[i].registered <==> Registered(cands, files[i].path)
    ensures Total(files) < 786_432 ==> forall c | c in cands && Reportable(fs, c) :: Emitted(files, c.path)
    ensures forall i | 0 <= i < |files| :: Sourced(registry, builtins, files[i])
  {
    var all: seq<Candidate> := [];
    for i := 0 to |registry|
      invariant all == FromRegistry(registry[..i]) && forall j | 0 <= j < |all| :: all[j].registered
      invariant forall p :: Registered(all, p) <==> p != "" && exists k :: 0 <= k < i && registry[k].1 == p
    {
      ghost var before := all;
      assert registry[..i + 1][..i] == registry[..i];
      if registry[i].1 != "" {
        all := all + [Candidate(registry[i].0, registry[i].1, true)];
      }
      RegisteredMore(before, all, registry, i);
    }
    var own := |all|;
    assert registry[..|registry|] == registry;
    for i := 0 to |builtins|
      invariant all == FromRegistry(registry) + FromBuiltins(builtins[..i])
      invariant own <= |all| && (forall j | 0 <= j < |all| :: all[j].registered <==> j < own)
      invariant forall p :: Registered(all, p) <==> p != "" && exists k :: 0 <= k < |registry| && registry[k].1 == p
    {
      var c := Candidate(builtins[i].0, builtins[i].1, false);
      BuiltinsRegisterNothing(all, c);
      all := all + [c];
      assert builtins[..i + 1][..i] == builtins[..i];
    }
    assert builtins[..|builtins|] == builtins;
    cands := all;
    var scanned;
    files, scanned := Scan(all, fs);
    forall i | 0 <= i < |files| ensures files[i].registered <==> Registered(cands, files[i].path) {
      ClaimsAreRight(fs, cands, files[i]);
    }
    forall i | 0 <= i < |files| ensures Sourced(registry, builtins, files[i]) {
      ClaimsAreSourced(fs, registry, builtins, files[i]);
    }
  }

  /** The first entry of the list that names this path is this one. */
  ghost predicate FirstNaming(entries: seq<(string, string)>, tool: string, path: string) {
    exists k :: 0 <= k < |entries| && entries[k] == (tool, path) && forall j | 0 <= j < k :: entries[j].1 != path
  }

  /** A reported file carries the alias of the first registry entry with its path, or, if there is none, the
      tool of the first built-in with its path. */
  ghost predicate Sourced(registry: seq<(string, string)>, builtins: seq<(string, string)>, f: ConfFile) {
    if f.registered then f.path != "" && FirstNaming(registry, f.tool, f.path)
    else FirstNaming(builtins, f.tool, f.path) && forall k | 0 <= k < |registry| && registry[k].1 == f.path ::
        f.path == ""
  }

  lemma {:induction false} BuiltinAt(builtins: seq<(string, string)>)
    ensures |FromBuiltins(builtins)| == |builtins|
    ensures forall k | 0 <= k < |builtins| ::
              FromBuiltins(builtins)[k] == Candidate(builtins[k].0, builtins[k].1, false)
  {
    if builtins != [] {
      BuiltinAt(builtins[..|builtins| - 1]);
    }
  }

  /** The i-th registered candidate comes from a registry entry, and no entry before it with the same path is
      without a candidate. */
  lemma {:induction false} RegistryAt(registry: seq<(string, string)>, i: nat) returns (k: nat)
    requires i < |FromRegistry(registry)|
    ensures var c := FromRegistry(registry)[i];
            && k < |registry| && registry[k] == (c.tool, c.path) && c.path != "" && c.registered
            && forall j | 0 <= j < k && registry[j].1 == c.path ::
                 exists m :: 0 <= m < i && FromRegistry(registry)[m].path == c.path
  {
    var init := registry[..|registry| - 1];
    if i < |FromRegistry(init)| {
      k := RegistryAt(init, i);
      var path := registry[k].1;
      forall j | 0 <= j < k && registry[j].1 == path
        ensures exists m :: 0 <= m < i && FromRegistry(registry)[m].path == path
      {
        assert init[j] == registry[j];
        var m :| 0 <= m < i && FromRegistry(init)[m].path == path;
        assert FromRegistry(registry)[m] == FromRegistry(init)[m];
      }
    } else {
      k := |registry| - 1;
      forall j | 0 <= j < k && registry[j].1 == registry[k].1
        ensures exists m :: 0 <= m < i && FromRegistry(registry)[m].path == registry[k].1
      {
        assert init[j] == registry[j];
        var m := CandidateFor(init, j);
        assert FromRegistry(registry)[m] == FromRegistry(init)[m];
      }
    }
  }

  lemma {:induction false} CandidateFor(registry: seq<(string, string)>, j: nat) returns (m: nat)
    requires j < |registry| && registry[j].1 != ""
    ensures m < |FromRegistry(registry)| && FromRegistry(registry)[m].path == registry[j].1
    ensures FromRegistry(registry)[m].registered
  {
    if j == |registry| - 1 {
      m := |FromRegistry(registry)| - 1;
    } else {
      m := CandidateFor(registry[..|registry| - 1], j);
    }
  }

  lemma ClaimsAreSourced(fs: string -> Entry, registry: seq<(string, string)>, builtins: seq<(string, string)>,
                         f: ConfFile)
    requires Claimed(fs, FromRegistry(registry) + FromBuiltins(builtins), f)
    ensures Sourced(registry, builtins, f)
  {
    hide FromRegistry, FromBuiltins;
    var own := |FromRegistry(registry)|;
    var cands := FromRegistry(registry) + FromBuiltins(builtins);
    var i: nat :| ClaimedBy(fs, cands, f, i);
    BuiltinAt(builtins);
    if i < own {
      var k := RegistryAt(registry, i);
      forall j | 0 <= j < k ensures registry[j].1 != f.path {
        if registry[j].1 == f.path {
          var m :| 0 <= m < i && FromRegistry(registry)[m].path == f.path;
          RegisteredClaims(fs, registry, builtins, m);
        }
      }
    } else {
      forall k: nat | k < i - own ensures builtins[k].1 != f.path {
        assert cands[own + k] == FromBuiltins(builtins)[k];
        assert fs(f.path).File?;
      }
      assert builtins[i - own] == (f.tool, f.path);
      forall k | 0 <= k < |registry| && registry[k].1 == f.path ensures f.path == "" {
        if f.path != "" {
          var m := CandidateFor(registry, k);
          RegisteredClaims(fs, registry, builtins, m);
        }
      }
    }
  }

  lemma RegisteredClaims(fs: string -> Entry, registry: seq<(string, string)>, builtins: seq<(string, string)>, m: nat)
    requires m < |FromRegistry(registry)|
    ensures var c := (FromRegistry(registry) + FromBuiltins(builtins))[m];
            c == FromRegistry(registry)[m] && Reportable(fs, c)
  {
    hide FromBuiltins;
    var k := RegistryAt(registry, m);
  }

  lemma RegisteredMore(before: seq<Candidate>, all: seq<Candidate>, registry: seq<(string, string)>, i: nat)
    requires i < |registry|
    requires forall p :: Registered(before, p) <==> p != "" && exists k :: 0 <= k < i && registry[k].1 == p
    requires all == if registry[i].1 != "" then before + [Candidate(registry[i].0, registry[i].1, true)] else before
    ensures forall p :: Registered(all, p) <==> p != "" && exists k :: 0 <= k < i + 1 && registry[k].1 == p
  {
    forall p ensures Registered(all, p) <==> p != "" && exists k :: 0 <= k < i + 1 && registry[k].1 == p {
      if Registered(before, p) {
        var j :| 0 <= j < |before| && before[j].registered && before[j].path == p;
        assert all[j] == before[j];
      }
      if registry[i].1 != "" {
        assert all[|before|].path == registry[i].1;
      }
    }
  }

  lemma BuiltinsRegisterNothing(all: seq<Candidate>, c: Candidate)
    requires !c.registered
    ensures forall p :: Registered(all + [c], p) <==> Registered(all, p)
  {
    forall p ensures Registered(all + [c], p) <==> Registered(all, p) {
      if Registered(all, p) {
        var j :| 0 <= j < |all| && all[j].registered && all[j].path == p;
        assert (all + [c])[j] == all[j];
      }
    }
  }

  /** A path somebody registered is never attributed to a built-in. */
  lemma ClaimsAreRight(fs: string -> Entry, cands: seq<Candidate>, f: ConfFile)
    requires RegisteredFirst(cands) && Claimed(fs, cands, f)
    ensures f.registered <==> Registered(cands, f.path)
  {
    var i: nat :| ClaimedBy(fs, cands, f, i);
    if j :| 0 <= j < |cands| && cands[j].registered && cands[j].path == f.path {
      assert Reportable(fs, cands[j]);
      if j >= i && i != j {
        assert cands[i].registered;
      }
    }
  }
}
