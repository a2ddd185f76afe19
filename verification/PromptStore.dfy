/** The fallback prompt store of internal/fallback/fallback.go. */
module PromptStore {
  import opened Bytes
  import opened Wrappers
  import opened Text
  import Wav

  const MAX_UPLOAD_BYTES := 0xA0_0000
  const MAX_DURATION_MS := 60_000
  const DEFAULT_TENANT := "_default"
  const MAX_TENANT_DIR := 64

  datatype Scenario = AiUnavailable | CreditsExhausted | Timeout | SystemBusy | InternalError | Generic

  // ---------------------------------------------------------------- paths

  /** <root>/<dir>/<scenario>.wav */
  datatype Path = Path(dir: string, scenario: Scenario)

  predicate SafeChar(c: char) {
    'a' <= c <= 'z' || 'A' <= c <= 'Z' || '0' <= c <= '9' || c == '-' || c == '_'
  }

  /** The first `room` characters, each unsafe one replaced. */
  function Sanitize(s: string, room: nat): (r: string)
    ensures |r| == (if |s| < room then |s| else room) && forall c <- r :: SafeChar(c)
  {
    if s == [] || room == 0 then []
    else [if SafeChar(s[0]) then s[0] else '_'] + Sanitize(s[1..], room - 1)
  }

  /** A tenant's directory is one plain, non-empty, bounded path element. */
  function TenantDir(tenant: string): (r: string)
    ensures 0 < |r| <= MAX_TENANT_DIR && forall c <- r :: SafeChar(c)
  {
    var t := Trim(tenant);
    if t == [] then DEFAULT_TENANT else Sanitize(t, MAX_TENANT_DIR)
  }

  function PathOf(tenant: string, sc: Scenario): Path {
    Path(TenantDir(tenant), sc)
  }

  /** A letter or a digit of the Latin alphabet, a hyphen or an underscore. */
  predicate Plain(c: char) {
    'a' <= c <= 'z' || 'A' <= c <= 'Z' || '0' <= c <= '9' || c == '-' || c == '_'
  }

  lemma {:induction false} SanitizeIs(s: string, room: nat)
    ensures forall i :: 0 <= i < |Sanitize(s, room)| ==> Sanitize(s, room)[i] == if Plain(s[i]) then s[i] else '_'
  {
    if s != [] && room > 0 { SanitizeIs(s[1..], room - 1); }
  }

  /** A tenant's directory is its trimmed name, each character that is not plain
      an underscore, cut to 64; a blank name has the default directory. */
  lemma TenantDirIs(tenant: string)
    ensures
      var t, dir := Trim(tenant), TenantDir(tenant);
      if t == "" then dir == "_default"
      else
        && |dir| == (if |t| < 64 then |t| else 64)
        && forall i :: 0 <= i < |dir| ==> dir[i] == if Plain(t[i]) then t[i] else '_'
  {
    SanitizeIs(Trim(tenant), 64);
    hide Trim;
  }

  // ---------------------------------------------------------------- state

  datatype File = File(modTime: int, data: seq<byte>)

  datatype Cached = Cached(modTime: int, size: nat, wav: Wav.Wave)

  datatype LoadError = Missing | Undecodable(e: Wav.Error)

  /** The files under the root, the decode cache, and every file each path ever held. */
  datatype State = State(disk: map<Path, File>, cache: map<Path, Cached>, past: set<(Path, File)>)

  datatype Op =
    | Install(p: Path, f: File)       // Put, once the upload is normalised
    | Delete(p: Path, removed: bool)
    | Replace(p: Path, f: File)       // by somebody else
    | Vanish(p: Path)                 // by somebody else
    | Load(p: Path)

  function SameStamp(f: File, g: File): bool {
    f.modTime == g.modTime && |f.data| == |g.data|
  }

  predicate Hits(s: State, p: Path) {
    p in s.disk && p in s.cache && s.cache[p].modTime == s.disk[p].modTime && s.cache[p].size == |s.disk[p].data|
  }

  /** What a path holds now, decoded. */
  function OnDisk(s: State, p: Path): Result<Wav.Wave, LoadError> {
    if p !in s.disk then Failure(Missing)
    else
      match Wav.Decode(s.disk[p].data)
      case Success(w) => Success(w)
      case Failure(e) => Failure(Undecodable(e))
  }

  /** What `load` answers. */
  function LoadResult(s: State, p: Path): Result<Wav.Wave, LoadError> {
    if Hits(s, p) then Success(s.cache[p].wav) else OnDisk(s, p)
  }

  function Step(s: State, op: Op): State {
    match op
    case Install(p, f) => State(s.disk[p := f], s.cache - {p}, s.past + {(p, f)})
    case Delete(p, removed) => State(if removed then s.disk - {p} else s.disk, s.cache - {p}, s.past)
    case Replace(p, f) => State(s.disk[p := f], s.cache, s.past + {(p, f)})
    case Vanish(p) => State(s.disk - {p}, s.cache, s.past)
    case Load(p) =>
      if Hits(s, p) || OnDisk(s, p).Failure? then s
      else s.(cache := s.cache[p := Cached(s.disk[p].modTime, |s.disk[p].data|, OnDisk(s, p).value)])
  }

  function Run(s: State, ops: seq<Op>): State
    decreases |ops|
  {
    if ops == [] then s else Run(Step(s, ops[0]), ops[1..])
  }

  /** A new process over files that are already there. */
  function Opened(disk: map<Path, File>): State {
    State(disk, map[], set p <- disk :: (p, disk[p]))
  }

  // ---------------------------------------------------------------- laws

  /** Some file the path held carried the cached stamp and decoded to the cached audio. */
  ghost predicate Remembered(past: set<(Path, File)>, p: Path, c: Cached) {
    exists f :: (p, f) in past && f.modTime == c.modTime && |f.data| == c.size && Wav.Decode(f.data) == Success(c.wav)
  }

  ghost predicate Inv(s: State) {
    && (forall p <- s.disk :: (p, s.disk[p]) in s.past)
    && (forall p <- s.cache :: Remembered(s.past, p, s.cache[p]))
  }

  /** Every file a path ever held. */
  function FilesAt(past: set<(Path, File)>, p: Path): set<File> {
    set x <- past | x.0 == p :: x.1
  }

  /** Files that share a stamp decode alike, unless the one cached never did. */
  ghost predicate Harmless(fs: set<File>) {
    forall f, g :: f in fs && g in fs && SameStamp(f, g) && Wav.Decode(f.data).Success? ==>
                     Wav.Decode(g.data) == Wav.Decode(f.data)
  }

  lemma RememberedStays(past: set<(Path, File)>, past': set<(Path, File)>, p: Path, c: Cached)
    requires past <= past' && Remembered(past, p, c)
    ensures Remembered(past', p, c)
  {
  }

  lemma InvStep(s: State, op: Op)
    requires Inv(s)
    ensures Inv(Step(s, op))
  {
    var t := Step(s, op);
    forall p <- t.cache ensures Remembered(t.past, p, t.cache[p]) {
      if p in s.cache && t.cache[p] == s.cache[p] {
        RememberedStays(s.past, t.past, p, s.cache[p]);
      } else {
        assert (p, s.disk[p]) in t.past;
      }
    }
    hide Wav.Decode, Remembered;
  }

  lemma {:induction false} InvRun(s: State, ops: seq<Op>)
    requires Inv(s)
    ensures Inv(Run(s, ops))
    decreases |ops|
  {
    if ops != [] {
      InvStep(s, ops[0]);
      hide Inv, Step;
      InvRun(Step(s, ops[0]), ops[1..]);
    }
  }

  lemma CacheIsCurrent(s: State, p: Path)
    requires Inv(s) && Harmless(FilesAt(s.past, p))
    ensures LoadResult(s, p) == OnDisk(s, p)
  {
    if Hits(s, p) {
      var c := s.cache[p];
      var f :| (p, f) in s.past && f.modTime == c.modTime && |f.data| == c.size && Wav.Decode(f.data) == Success(c.wav);
      assert SameStamp(f, s.disk[p]) && f in FilesAt(s.past, p) && s.disk[p] in FilesAt(s.past, p);
    }
    hide Wav.Decode;
  }

  /** What a load answers after some operations is what the file holds then. */
  predicate Current(disk: map<Path, File>, ops: seq<Op>, p: Path) {
    var s := Run(Opened(disk), ops);
    LoadResult(s, p) == OnDisk(s, p)
  }

  ghost predicate HoldsOnly(disk: map<Path, File>, ops: seq<Op>, p: Path, fs: set<File>) {
    FilesAt(Run(Opened(disk), ops).past, p) <= fs
  }

  /** Among given files, loads always answer what the path holds, whatever
      uploads, deletions, outside changes and loads come before, exactly when
      files that share a stamp decode alike (or the cached one never did). */
  lemma LoadAgreesIff(p: Path, fs: set<File>)
    ensures Harmless(fs) <==> forall disk, ops :: HoldsOnly(disk, ops, p, fs) ==> Current(disk, ops, p)
  {
    hide Wav.Decode, Step, OnDisk, LoadResult;
    if Harmless(fs) {
      forall disk, ops | HoldsOnly(disk, ops, p, fs) ensures Current(disk, ops, p) { LoadAgreesWithDisk(disk, ops, p); }
    } else {
      var f, g :| f in fs && g in fs && SameStamp(f, g) && Wav.Decode(f.data).Success?
                  && Wav.Decode(g.data) != Wav.Decode(f.data);
      var ops := StampReuseGoesUnnoticed(p, f, g);
      assert HoldsOnly(map[], ops, p, fs);
      assert !Current(map[], ops, p);
    }
  }

  lemma LoadAgreesWithDisk(disk: map<Path, File>, ops: seq<Op>, p: Path)
    requires Harmless(FilesAt(Run(Opened(disk), ops).past, p))
    ensures Current(disk, ops, p)
  {
    InvRun(Opened(disk), ops);
    hide Wav.Decode, OnDisk, LoadResult, Run, Inv, Harmless;
    CacheIsCurrent(Run(Opened(disk), ops), p);
  }

  /** A replacement with the stamp of a cached file stays unheard. */
  lemma StampReuseGoesUnnoticed(p: Path, f: File, g: File) returns (ops: seq<Op>)
    requires SameStamp(f, g) && Wav.Decode(f.data).Success? && Wav.Decode(f.data) != Wav.Decode(g.data)
    ensures
      var s := Run(Opened(map[]), ops);
      && FilesAt(s.past, p) == {f, g}
      && LoadResult(s, p) == Success(Wav.Decode(f.data).value) && LoadResult(s, p) != OnDisk(s, p)
  {
    hide Wav.Decode;
    ops := [Replace(p, f), Load(p), Replace(p, g)];
    var s1 := Step(Opened(map[]), Replace(p, f));
    var s2 := Step(s1, Load(p));
    var s3 := Step(s2, Replace(p, g));
    assert s2.cache[p] == Cached(f.modTime, |f.data|, Wav.Decode(f.data).value);
    assert Run(s2, [Replace(p, g)]) == s3;
    assert Run(s1, [Load(p), Replace(p, g)]) == s3;
    assert s3.past == {(p, f), (p, g)};
    assert (p, f) in s3.past && (p, g) in s3.past;
  }

  /** An upload or a deletion forgets what was cached: whatever file comes next,
      with whatever stamp, is read. */
  lemma ForgottenAfter(s: State, op: Op, f: File)
    requires op.Install? || op.Delete?
    ensures var t := Step(Step(s, op), Replace(op.p, f)); LoadResult(t, op.p) == OnDisk(t, op.p)
  {
    hide Wav.Decode;
  }

  // ---------------------------------------------------------------- uploads

  datatype Asset = Asset(
    scenario: Scenario, tenantId: string, path: Path, sampleRate: int, durationMs: int, bytes: nat, pcm: Option<seq<byte>>)

  datatype PutError = Empty | TooBig | Rejected(e: Wav.Error) | TooLong | DiskFailed

  function Describe(tenant: string, sc: Scenario, path: Path, w: Wav.Wave): Asset {
    Asset(sc, tenant, path, w.sampleRate, w.durationMs, |w.pcm|, None)
  }

  /** Why an upload is refused, if it is. */
  function PutVerdict(data: seq<byte>, diskOk: bool): Result<Wav.Wave, PutError> {
    if |data| == 0 then Failure(Empty)
    else if |data| > MAX_UPLOAD_BYTES then Failure(TooBig)
    else
      match Wav.Decode(data)
      case Failure(e) => Failure(Rejected(e))
      case Success(w) =>
        if w.durationMs > MAX_DURATION_MS then Failure(TooLong)
        else if !diskOk then Failure(DiskFailed)
        else Success(w)
  }

  /** An upload is taken exactly when it is a WAVE file of at most 10 MiB and one
      minute, and the disk takes it. */
  lemma UploadTakenIff(data: seq<byte>, diskOk: bool)
    ensures
      var v := PutVerdict(data, diskOk);
      && (v.Success? <==>
          && |data| <= 10 * 1024 * 1024 && Wav.Decode(data).Success? && Wav.Decode(data).value.durationMs <= 60_000
          && diskOk)
      && (v.Success? ==> v.value == Wav.Decode(data).value)
  {
    if data == [] { assert Wav.Decode(data) == Failure(Wav.NotWav); }
    hide Wav.Decode;
  }

  /** The normalised form of an upload. */
  function Normalised(w: Wav.Wave): seq<byte> {
    Wav.Header(1, w.sampleRate, |w.pcm|) + w.pcm
  }

  /** An accepted upload is stored in a form that decodes to exactly what was
      decoded from the upload, but for the channel count of its source. */
  lemma UploadKeepsAudio(data: seq<byte>)
    requires PutVerdict(data, true).Success?
    ensures var w := PutVerdict(data, true).value;
            Wav.Decode(Normalised(w)) == Success(w.(sourceChannels := 1))
  {
    hide Wav.Decode, Wav.Header;
    Wav.NormaliseIdempotent(data);
  }

  // ---------------------------------------------------------------- resolution

  /** Where a prompt is looked for, in order. */
  function Candidates(tenant: string, sc: Scenario): seq<(string, Scenario)> {
    [(tenant, sc), (tenant, Generic), ("", sc), ("", Generic)]
  }

  /** The state after loading candidates i, i+1, ... until one decodes. */
  function Probe(s: State, cs: seq<(string, Scenario)>, i: nat): (r: (State, Option<nat>))
    ensures r.1.Some? ==> i <= r.1.value < |cs|
    decreases |cs| - i
  {
    if i >= |cs| then (s, None)
    else
      var p := PathOf(cs[i].0, cs[i].1);
      if LoadResult(s, p).Success? then (Step(s, Load(p)), Some(i)) else Probe(Step(s, Load(p)), cs, i + 1)
  }

  lemma LoadChangesNoAnswer(s: State, p: Path, q: Path)
    ensures OnDisk(Step(s, Load(p)), q) == OnDisk(s, q)
    ensures LoadResult(Step(s, Load(p)), q) == LoadResult(s, q)
  {
    hide Wav.Decode;
  }

  /** Probing finds the first candidate that loads. */
  lemma {:induction false} ProbeFindsFirst(s: State, cs: seq<(string, Scenario)>, i: nat)
    requires i <= |cs|
    ensures
      var r := Probe(s, cs, i).1;
      && (r.Some? ==> i <= r.value < |cs| && LoadResult(s, PathOf(cs[r.value].0, cs[r.value].1)).Success?)
      && forall j :: i <= j < (if r.Some? then r.value else |cs|) ==> LoadResult(s, PathOf(cs[j].0, cs[j].1)).Failure?
    decreases |cs| - i
  {
    hide LoadResult, Step, PathOf;
    if i < |cs| {
      var p := PathOf(cs[i].0, cs[i].1);
      ProbeFindsFirst(Step(s, Load(p)), cs, i + 1);
      LoadChangesNoAnswers(s, p);
    }
  }

  lemma LoadChangesNoAnswers(s: State, p: Path)
    ensures forall q :: LoadResult(Step(s, Load(p)), q) == LoadResult(s, q)
  {
    forall q ensures LoadResult(Step(s, Load(p)), q) == LoadResult(s, q) { LoadChangesNoAnswer(s, p, q); }
    hide LoadResult, Step;
  }

  /** Right after an upload is taken a load answers its audio. */
  lemma TakenAnswers(s: State, p: Path, now: int, data: seq<byte>, diskOk: bool)
    requires PutVerdict(data, diskOk).Success?
    ensures var w := PutVerdict(data, diskOk).value;
            LoadResult(Step(s, Install(p, File(now, Normalised(w)))), p) == Success(w.(sourceChannels := 1))
  {
    UploadKeepsAudio(data);
    hide Wav.Decode, Wav.Header;
  }

  // ---------------------------------------------------------------- store

  class Store {
    var disk: map<Path, File>
    var cache: map<Path, Cached>
    ghost var past: set<(Path, File)>

    ghost function St(): State
      reads this
    {
      State(disk, cache, past)
    }

    ghost predicate Valid()
      reads this
    {
      Inv(St())
    }

    constructor (disk: map<Path, File>)
      ensures Valid() && St() == Opened(disk)
    {
      this.disk, cache, past := disk, map[], set p <- disk :: (p, disk[p]);
    }

    /** Validates and stores a prompt in normalised form, at a clock reading. */
    method Put(tenant: string, sc: Scenario, data: seq<byte>, now: int, diskOk: bool) returns (r: Result<Asset, PutError>)
      requires Valid()
      modifies this
      ensures Valid()
      ensures
        var v, p := PutVerdict(data, diskOk), PathOf(tenant, sc);
        if v.Failure? then r == Failure(v.error) && St() == old(St())
        else
          && r == Success(Asset(sc, tenant, p, v.value.sampleRate, v.value.durationMs, |v.value.pcm|, None))
          && St() == Step(old(St()), Install(p, File(now, Normalised(v.value))))
          && LoadResult(St(), p) == Success(v.value.(sourceChannels := 1))
    {
      var v := CheckUpload(data, diskOk);
      hide Inv, Wav.Decode, Wav.Header, LoadResult, OnDisk, PathOf, PutVerdict, Wav.Describes;
      if v.Failure? { return Failure(v.error); }
      var w := v.value;
      var normalised := Wav.EncodeWAV(w.pcm, w.sampleRate);
      var dst := PathOf(tenant, sc);
      ghost var op := Install(dst, File(now, normalised));
      InvStep(St(), op);
      TakenAnswers(St(), dst, now, data, diskOk);
      disk := disk[dst := File(now, normalised)];
      cache := cache - {dst};
      past := past + {(dst, File(now, normalised))};
      assert St() == Step(old(St()), op);
      hide Step;
      r := Success(Describe(tenant, sc, dst, w));
    }

    /** Whether an upload is taken, and why not. */
    static method CheckUpload(data: seq<byte>, diskOk: bool) returns (v: Result<Wav.Wave, PutError>)
      ensures v == PutVerdict(data, diskOk)
    {
      if |data| == 0 { return Failure(Empty); }
      if |data| > MAX_UPLOAD_BYTES { return Failure(TooBig); }
      var d := Wav.DecodeWAV(data);
      hide Wav.Decode;
      if d.Failure? { return Failure(Rejected(d.error)); }
      if d.value.durationMs > MAX_DURATION_MS { return Failure(TooLong); }
      if !diskOk { return Failure(DiskFailed); }
      v := Success(d.value);
    }

    /** Removes a prompt; a missing one is not an error. */
    method Delete(tenant: string, sc: Scenario, diskOk: bool) returns (ok: bool)
      requires Valid()
      modifies this
      ensures Valid()
      ensures
        var p := PathOf(tenant, sc);
        && St() == Step(old(St()), Op.Delete(p, diskOk || p !in old(disk)))
        && ok == (diskOk || p !in old(disk))
        && (ok ==> LoadResult(St(), p) == Failure(Missing))
    {
      var p := PathOf(tenant, sc);
      InvStep(St(), Op.Delete(p, diskOk || p !in disk));
      cache := cache - {p};
      ok := diskOk || p !in disk;
      if ok { disk := disk - {p}; }
      hide Inv;
    }

    /** Reads and decodes a prompt, caching the result until the file changes. */
    method LoadFile(p: Path) returns (r: Result<Wav.Wave, LoadError>)
      requires Valid()
      modifies this`cache
      ensures Valid() && r == LoadResult(old(St()), p) && St() == Step(old(St()), Load(p))
      ensures Harmless(FilesAt(past, p)) ==> r == OnDisk(St(), p)
    {
      InvStep(St(), Load(p));
      CacheIsCurrentIf(St(), p);
      LoadChangesNoAnswer(St(), p, p);
      hide Inv, Harmless, FilesAt;
      if p !in disk { return Failure(Missing); }
      var st := disk[p];
      if p in cache && cache[p].modTime == st.modTime && cache[p].size == |st.data| {
        return Success(cache[p].wav);
      }
      var d := Wav.DecodeWAV(st.data);
      hide Wav.Decode;
      if d.Failure? { return Failure(Undecodable(d.error)); }
      cache := cache[p := Cached(st.modTime, |st.data|, d.value)];
      r := Success(d.value);
    }

    /** Finds the prompt to play: the first of the four candidates that decodes. */
    method Resolve(tenant: string, sc: Scenario) returns (a: Option<Asset>)
      requires Valid()
      modifies this`cache
      ensures Valid() && disk == old(disk)
      ensures ResolvesTo(old(St()), Candidates(tenant, sc), sc, St(), a)
    {
      var cs := Candidates(tenant, sc);
      ghost var s0 := St();
      ProbeFindsFirst(s0, cs, 0);
      hide Inv, OnDisk, Candidates, PathOf;
      var i := 0;
      while i < |cs|
        invariant i <= |cs| && Valid() && disk == old(disk) && past == old(past)
        invariant Probe(St(), cs, i) == Probe(s0, cs, 0)
        invariant forall q :: LoadResult(St(), q) == LoadResult(s0, q)
      {
        var p := PathOf(cs[i].0, cs[i].1);
        ghost var s := St();
        var w := LoadFile(p);
        forall q ensures LoadResult(St(), q) == LoadResult(s0, q) { LoadChangesNoAnswer(s, p, q); }
        hide LoadResult, Step;
        if w.Success? {
          var d := Describe(cs[i].0, cs[i].1, p, w.value);
          return Some(d.(pcm := Some(w.value.pcm), scenario := sc));
        }
        i := i + 1;
      }
      a := None;
    }
  }

  /** Resolving leaves the state of the probe and serves the candidate it found. */
  predicate ResolvesTo(s: State, cs: seq<(string, Scenario)>, asked: Scenario, t: State, a: Option<Asset>) {
    var r := Probe(s, cs, 0);
    && t == r.0 && (a.Some? <==> r.1.Some?)
    && (a.Some? ==> Serves(a.value, s, cs[r.1.value], asked))
  }

  /** What a tenant's path of a scenario answers. */
  function Answer(s: State, tenant: string, sc: Scenario): Result<Wav.Wave, LoadError> {
    LoadResult(s, Path(TenantDir(tenant), sc))
  }

  /** A tenant's own prompt comes first, then its generic one, then the default
      prompt of the scenario, then the default generic one; whichever it is plays
      under the scenario asked for. */
  lemma ResolveOrder(s: State, tenant: string, sc: Scenario, t: State, a: Option<Asset>)
    requires ResolvesTo(s, Candidates(tenant, sc), sc, t, a)
    ensures
      if Answer(s, tenant, sc).Success? then Plays(a, tenant, sc, sc, Answer(s, tenant, sc).value)
      else if Answer(s, tenant, Generic).Success? then Plays(a, tenant, Generic, sc, Answer(s, tenant, Generic).value)
      else if Answer(s, "", sc).Success? then Plays(a, "", sc, sc, Answer(s, "", sc).value)
      else if Answer(s, "", Generic).Success? then Plays(a, "", Generic, sc, Answer(s, "", Generic).value)
      else a == None
  {
    var cs := Candidates(tenant, sc);
    ProbeFindsFirst(s, cs, 0);
    assert |cs| == 4 && cs[0] == (tenant, sc) && cs[1] == (tenant, Generic) && cs[2] == ("", sc) && cs[3] == ("", Generic);
    assert forall j :: 0 <= j < 4 ==> LoadResult(s, PathOf(cs[j].0, cs[j].1)) == Answer(s, cs[j].0, cs[j].1);
    hide LoadResult, Probe, Candidates, TenantDir;
  }

  predicate Plays(a: Option<Asset>, tenant: string, sc: Scenario, asked: Scenario, w: Wav.Wave) {
    a == Some(Asset(asked, tenant, Path(TenantDir(tenant), sc), w.sampleRate, w.durationMs, |w.pcm|, Some(w.pcm)))
  }

  /** While the files of each candidate's path are harmless, that is the first candidate
      whose file decodes now, and there is none only if no file decodes. */
  lemma ResolveServesFirstDecodable(s: State, cs: seq<(string, Scenario)>)
    requires Inv(s) && forall c <- cs :: Harmless(FilesAt(s.past, PathOf(c.0, c.1)))
    ensures
      var r := Probe(s, cs, 0).1;
      && (r.Some? ==> OnDisk(s, PathOf(cs[r.value].0, cs[r.value].1)).Success?)
      && forall j :: 0 <= j < (if r.Some? then r.value else |cs|) ==> OnDisk(s, PathOf(cs[j].0, cs[j].1)).Failure?
  {
    ProbeFindsFirst(s, cs, 0);
    forall c | c in cs ensures LoadResult(s, PathOf(c.0, c.1)) == OnDisk(s, PathOf(c.0, c.1)) {
      CacheIsCurrent(s, PathOf(c.0, c.1));
    }
    hide LoadResult, OnDisk, Probe, PathOf, Inv, Harmless;
  }

  /** An asset that plays what a candidate holds, labelled with the scenario asked for. */
  predicate Serves(a: Asset, s: State, c: (string, Scenario), asked: Scenario) {
    var p := PathOf(c.0, c.1);
    var r := LoadResult(s, p);
    r.Success? && a == Asset(asked, c.0, p, r.value.sampleRate, r.value.durationMs, |r.value.pcm|, Some(r.value.pcm))
  }

  lemma CacheIsCurrentIf(s: State, p: Path)
    requires Inv(s)
    ensures Harmless(FilesAt(s.past, p)) ==> LoadResult(s, p) == OnDisk(s, p)
  {
    if Harmless(FilesAt(s.past, p)) { CacheIsCurrent(s, p); }
  }
}
