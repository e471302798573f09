/**
  Volumes and mounts of a job. An input or output name is split at slashes: the
  first part names the volume, the rest the path inside it. Two separately
  written loops build the mounts and the volumes; they agree, the paths can be
  read back, and runs with their own directory never share one.
 */
module Volumes {
  import opened Naming
  import opened Options

  // ---------- slashes ----------

  function TrimPrefix(s: string): string {
    if s != "" && s[0] == '/' then s[1..] else s
  }

  function TrimSuffix(s: string): string {
    if s != "" && s[|s| - 1] == '/' then s[..|s| - 1] else s
  }

  /** One leading and one trailing slash are dropped, no more. */
  function Trim(s: string): string {
    TrimSuffix(TrimPrefix(s))
  }

  function Split(s: string): (parts: seq<string>)
    ensures |parts| > 0
  {
    if s == "" then [""]
    else if s[0] == '/' then [""] + Split(s[1..])
    else
      var rest := Split(s[1..]);
      [[s[0]] + rest[0]] + rest[1..]
  }

  function Join(parts: seq<string>): string {
    if parts == [] then ""
    else if |parts| == 1 then parts[0]
    else parts[0] + "/" + Join(parts[1..])
  }

  lemma {:induction false} JoinOfSplit(s: string)
    ensures Join(Split(s)) == s
    ensures '/' !in Split(s)[0]
    ensures |Split(s)| == 1 <==> '/' !in s
  {
    if s == "" {
    } else {
      JoinOfSplit(s[1..]);
      var rest := Split(s[1..]);
      assert s == [s[0]] + s[1..];
      if s[0] == '/' {
        assert ([""] + rest)[1..] == rest;
      } else {
        assert ([[s[0]] + rest[0]] + rest[1..])[1..] == rest[1..];
      }
    }
  }

  // ---------- inputs and outputs ----------

  datatype IOVolumeSpec = IOVolumeSpec(
    name: string, mountPathOverride: string, mountPrefix: string, useIntermediateDirectory: bool)

  datatype VolumeMount = VolumeMount(name: string, mountPath: string, subPath: string, readOnly: bool)

  /** An entry and whether it comes from a list of inputs. */
  datatype Entry = Entry(io: IOVolumeSpec, isInput: bool)

  const DEFAULT_PREFIX := "/data/pipeline"

  /** The parts of a name, unless the first is empty. */
  function Corpus(name: string): Option<seq<string>> {
    var parts := Split(Trim(name));
    if parts[0] == "" then None else Some(parts)
  }

  predicate Named(io: IOVolumeSpec) {
    Corpus(io.name).Some?
  }

  function SubPath(parts: seq<string>): string {
    Trim(if |parts| > 1 then Join(parts[1..]) else "")
  }

  function Prefix(io: IOVolumeSpec): string {
    var prefix := if io.mountPrefix != "" then io.mountPrefix else DEFAULT_PREFIX;
    if prefix != "" && prefix[0] == '/' then prefix else "/" + prefix
  }

  function MountOf(e: Entry, runName: string): VolumeMount
    requires Named(e.io)
  {
    var parts := Corpus(e.io.name).value;
    var subPath := SubPath(parts);
    var mountPath := if e.io.mountPathOverride != "" then e.io.mountPathOverride else parts[0] + "/" + subPath;
    var directory := if e.io.useIntermediateDirectory then runName + "/" + subPath else subPath;
    VolumeMount(parts[0], Prefix(e.io) + "/" + Trim(mountPath), Trim(directory), e.isInput)
  }

  function Tag(list: seq<IOVolumeSpec>, isInput: bool): seq<Entry> {
    seq(|list|, i requires 0 <= i < |list| => Entry(list[i], isInput))
  }

  /** The four lists of a job in the order both loops read them: the run's inputs and outputs, then the job's. */
  datatype Lists = Lists(
    runInputs: seq<IOVolumeSpec>, runOutputs: seq<IOVolumeSpec>, inputs: seq<IOVolumeSpec>, outputs: seq<IOVolumeSpec>)

  function Entries(l: Lists): seq<Entry> {
    Tag(l.runInputs, true) + Tag(l.runOutputs, false) + Tag(l.inputs, true) + Tag(l.outputs, false)
  }

  ghost predicate AllNamed(es: seq<Entry>) {
    forall i :: 0 <= i < |es| ==> Named(es[i].io)
  }

  ghost function Each(f: Entry --> VolumeMount, es: seq<Entry>): seq<VolumeMount>
    requires forall i :: 0 <= i < |es| ==> f.requires(es[i])
  {
    seq(|es|, i requires 0 <= i < |es| => f(es[i]))
  }

  lemma {:induction false} EachConcat(f: Entry --> VolumeMount, a: seq<Entry>, b: seq<Entry>)
    requires forall i :: 0 <= i < |a| ==> f.requires(a[i])
    requires forall i :: 0 <= i < |b| ==> f.requires(b[i])
    ensures forall i :: 0 <= i < |a + b| ==> f.requires((a + b)[i])
    ensures Each(f, a + b) == Each(f, a) + Each(f, b)
  {
  }

  ghost function Mounter(runName: string): Entry --> VolumeMount {
    (e: Entry) requires Named(e.io) => MountOf(e, runName)
  }

  ghost function MountsOf(es: seq<Entry>, runName: string): seq<VolumeMount>
    requires AllNamed(es)
  {
    Each(Mounter(runName), es)
  }

  function VolumeName(e: Entry): string {
    if Named(e.io) then Corpus(e.io.name).value[0] else ""
  }

  function VolumeNames(es: seq<Entry>): seq<string> {
    seq(|es|, i requires 0 <= i < |es| => VolumeName(es[i]))
  }

  /** The list without repetitions, each name where it first occurs. */
  function FirstOccurrences(names: seq<string>): seq<string> {
    if names == [] then []
    else
      var front, last := FirstOccurrences(names[..|names| - 1]), names[|names| - 1];
      if last in front then front else front + [last]
  }

  // ---------- the two loops ----------

  /** The mount of one entry, from the parts of its name. */
  method BuildMount(io: IOVolumeSpec, corpus: seq<string>, isInput: bool, runName: string) returns (mount: VolumeMount)
    requires Corpus(io.name) == Some(corpus)
    ensures mount == MountOf(Entry(io, isInput), runName)
  {
    var subPath := "";
    if |corpus| > 1 {
      subPath := Join(corpus[1..]);
    }
    subPath := TrimPrefix(subPath);
    subPath := TrimSuffix(subPath);
    var prefix := DEFAULT_PREFIX;
    if io.mountPrefix != "" {
      prefix := io.mountPrefix;
    }
    if prefix[0] != '/' {
      prefix := "/" + prefix;
    }
    var mountPath := corpus[0] + "/" + subPath;
    if io.mountPathOverride != "" {
      mountPath := io.mountPathOverride;
    }
    mountPath := TrimPrefix(mountPath);
    mountPath := TrimSuffix(mountPath);
    var directory := subPath;
    if io.useIntermediateDirectory {
      directory := runName + "/" + subPath;
    }
    directory := TrimPrefix(directory);
    directory := TrimSuffix(directory);
    mount := VolumeMount(corpus[0], prefix + "/" + mountPath, directory, isInput);
  }

  lemma {:induction false} MountsOfNext(es: seq<Entry>, i: nat, runName: string)
    requires i < |es| && AllNamed(es[..i]) && Named(es[i].io)
    ensures AllNamed(es[..i + 1]) &&
        MountsOf(es[..i + 1], runName) == MountsOf(es[..i], runName) + [MountOf(es[i], runName)]
  {
    assert es[..i + 1] == es[..i] + [es[i]];
    EachConcat(Mounter(runName), es[..i], [es[i]]);
  }

  lemma {:induction false} NamedNext(es: seq<Entry>, i: nat)
    requires i < |es| && AllNamed(es[..i]) && Named(es[i].io)
    ensures AllNamed(es[..i + 1])
  {
    assert forall k :: 0 <= k < i ==> es[..i + 1][k] == es[..i][k];
  }

  /** The inner loop over one list; it stops at the first name that has no volume. */
  method MountList(list: seq<IOVolumeSpec>, isInput: bool, runName: string) returns (ok: bool, mounts: seq<VolumeMount>)
    ensures ok <==> AllNamed(Tag(list, isInput))
    ensures ok ==> mounts == MountsOf(Tag(list, isInput), runName)
  {
    ghost var es := Tag(list, isInput);
    ok, mounts := true, [];
    for i := 0 to |list|
      invariant AllNamed(es[..i])
      invariant mounts == MountsOf(es[..i], runName)
    {
      assert es[i] == Entry(list[i], isInput);
      var corpus := Corpus(list[i].name);
      if corpus.None? {
        assert !Named(es[i].io);
        return false, [];
      }
      var mount := BuildMount(list[i], corpus.value, isInput, runName);
      MountsOfNext(es, i, runName);
      mounts := mounts + [mount];
    }
    assert es[..|list|] == es;
  }

  lemma {:induction false} NamedConcat(a: seq<Entry>, b: seq<Entry>)
    ensures AllNamed(a + b) <==> AllNamed(a) && AllNamed(b)
  {
    assert forall i :: 0 <= i < |a| ==> (a + b)[i] == a[i];
    assert forall i :: 0 <= i < |b| ==> (a + b)[|a| + i] == b[i];
  }

  lemma {:induction false} MountsOfConcat(a: seq<Entry>, b: seq<Entry>, runName: string)
    requires AllNamed(a) && AllNamed(b) && AllNamed(a + b)
    ensures MountsOf(a + b, runName) == MountsOf(a, runName) + MountsOf(b, runName)
  {
    EachConcat(Mounter(runName), a, b);
  }

  /** One mount per entry, in the order of the entries. */
  lemma {:induction false} MountAt(es: seq<Entry>, runName: string)
    requires AllNamed(es)
    ensures |MountsOf(es, runName)| == |es|
    ensures forall i :: 0 <= i < |es| ==> MountsOf(es, runName)[i] == MountOf(es[i], runName)
  {
    var f := Mounter(runName);
    assert MountsOf(es, runName) == Each(f, es);
    forall i | 0 <= i < |es| ensures MountsOf(es, runName)[i] == MountOf(es[i], runName) {
      assert Each(f, es)[i] == f(es[i]);
    }
  }

  /** The entries of the first `n` lists. */
  ghost function EntriesOf(l: Lists, n: nat): seq<Entry> {
    if n == 0 then []
    else if n == 1 then Tag(l.runInputs, true)
    else if n == 2 then Tag(l.runInputs, true) + Tag(l.runOutputs, false)
    else if n == 3 then Tag(l.runInputs, true) + Tag(l.runOutputs, false) + Tag(l.inputs, true)
    else Entries(l)
  }

  function ListAt(l: Lists, n: nat): seq<IOVolumeSpec> {
    if n == 0 then l.runInputs else if n == 1 then l.runOutputs else if n == 2 then l.inputs else l.outputs
  }

  lemma {:induction false} NextList(l: Lists, n: nat)
    requires n < 4
    ensures EntriesOf(l, n + 1) == EntriesOf(l, n) + Tag(ListAt(l, n), n % 2 == 0)
  {
    assert [] + Tag(l.runInputs, true) == Tag(l.runInputs, true);
  }

  lemma {:induction false} MoreEntries(l: Lists, n: nat)
    requires n <= 4 && AllNamed(Entries(l))
    ensures AllNamed(EntriesOf(l, n))
    decreases 4 - n
  {
    if n < 4 {
      MoreEntries(l, n + 1);
      NextList(l, n);
      NamedConcat(EntriesOf(l, n), Tag(ListAt(l, n), n % 2 == 0));
    }
  }

  /** The mounts of a job: the lists of the run, then those of the job, inputs before outputs. */
  method ParseVolumeMountList(l: Lists, runName: string) returns (ok: bool, mounts: seq<VolumeMount>)
    ensures ok <==> AllNamed(Entries(l))
    ensures ok ==> mounts == MountsOf(Entries(l), runName)
  {
    mounts := [];
    for n := 0 to 4
      invariant AllNamed(EntriesOf(l, n))
      invariant mounts == MountsOf(EntriesOf(l, n), runName)
    {
      var more: seq<VolumeMount>;
      ok, more := MountList(ListAt(l, n), n % 2 == 0, runName);
      NextList(l, n);
      NamedConcat(EntriesOf(l, n), Tag(ListAt(l, n), n % 2 == 0));
      if !ok {
        if AllNamed(Entries(l)) {
          MoreEntries(l, n + 1);
        }
        return false, [];
      }
      MountsOfConcat(EntriesOf(l, n), Tag(ListAt(l, n), n % 2 == 0), runName);
      mounts := mounts + more;
    }
    ok := true;
  }

  lemma {:induction false} FirstOccurrencesNext(names: seq<string>, i: nat)
    requires i < |names|
    ensures var front := FirstOccurrences(names[..i]);
            FirstOccurrences(names[..i + 1]) == if names[i] in front then front else front + [names[i]]
  {
    assert names[..i + 1][..i] == names[..i];
  }

  /** The volumes of a job: one claim for every volume name, once. */
  method ParseVolumes(l: Lists) returns (ok: bool, volumes: seq<string>)
    ensures ok <==> AllNamed(Entries(l))
    ensures ok ==> volumes == FirstOccurrences(VolumeNames(Entries(l)))
  {
    var all := l.runInputs + l.runOutputs + l.inputs + l.outputs;
    ghost var es := Entries(l);
    ghost var names := VolumeNames(es);
    assert forall i :: 0 <= i < |all| ==> es[i].io == all[i];
    var seen: set<string> := {};
    volumes := [];
    for i := 0 to |all|
      invariant AllNamed(es[..i])
      invariant volumes == FirstOccurrences(names[..i])
      invariant forall v :: v in seen <==> v in volumes
    {
      var corpus := Corpus(all[i].name);
      if corpus.None? {
        assert !Named(es[i].io);
        return false, [];
      }
      var volumeName := corpus.value[0];
      assert names[i] == volumeName;
      FirstOccurrencesNext(names, i);
      NamedNext(es, i);
      if volumeName !in seen {
        seen := seen + {volumeName};
        volumes := volumes + [volumeName];
      }
    }
    assert es[..|all|] == es && names[..|all|] == names;
    ok := true;
  }

  // ---------- the loops agree ----------

  function IndexOf(names: seq<string>, name: string): nat {
    if names == [] || names[0] == name then 0 else 1 + IndexOf(names[1..], name)
  }

  lemma {:induction false} IndexOfFront(names: seq<string>, last: string, name: string)
    ensures IndexOf(names + [last], name) == (if name in names then IndexOf(names, name)
        else if name == last then |names| else |names| + 1)
    ensures name in names ==> IndexOf(names, name) < |names|
  {
    if names == [] {
      assert ([last])[1..] == [];
    } else {
      assert (names + [last])[1..] == names[1..] + [last];
      IndexOfFront(names[1..], last, name);
    }
  }

  /** The listed names are taken in the order of their first occurrence; in particular none is listed twice. */
  ghost predicate InOrder(names: seq<string>, listed: seq<string>) {
    forall i, k :: 0 <= i < k < |listed| ==> IndexOf(names, listed[i]) < IndexOf(names, listed[k])
  }

  lemma {:induction false} InOrderNext(names: seq<string>, listed: seq<string>, last: string)
    requires InOrder(names, listed) && forall n <- listed :: n in names
    ensures InOrder(names + [last], listed)
    ensures last !in names ==> InOrder(names + [last], listed + [last])
  {
    IndexOfFront(names, last, last);
    forall n | n in listed ensures IndexOf(names + [last], n) == IndexOf(names, n) < |names| {
      IndexOfFront(names, last, n);
    }
    assert forall i :: 0 <= i < |listed| ==> listed[i] in listed;
  }

  /** Removing repetitions keeps every name, once, in the order of first occurrence. */
  lemma {:induction false} FirstOccurrencesFacts(names: seq<string>)
    ensures forall n :: n in FirstOccurrences(names) <==> n in names
    ensures InOrder(names, FirstOccurrences(names))
  {
    if names != [] {
      var front, last := names[..|names| - 1], names[|names| - 1];
      assert names == front + [last];
      FirstOccurrencesFacts(front);
      InOrderNext(front, FirstOccurrences(front), last);
    }
  }

  /**
    Mounts and volumes agree. On the same inputs, the mounts name exactly the
    volumes, the volumes come without repetition in the order the mounts first
    use them, and a mount is read-only exactly when its entry is an input.
   */
  lemma {:induction false} VolumesAgreeWithMounts(es: seq<Entry>, runName: string)
    requires AllNamed(es)
    ensures var mounts, volumes := MountsOf(es, runName), FirstOccurrences(VolumeNames(es));
            && |mounts| == |es|
            && (forall v :: v in volumes <==> exists i :: 0 <= i < |mounts| && mounts[i].name == v)
            && InOrder(VolumeNames(es), volumes)
            && (forall i :: 0 <= i < |mounts| ==>
                 mounts[i].name == VolumeNames(es)[i] && (mounts[i].readOnly <==> es[i].isInput))
  {
    MountAt(es, runName);
    var mounts, names := MountsOf(es, runName), VolumeNames(es);
    FirstOccurrencesFacts(names);
    forall v ensures v in names <==> exists i :: 0 <= i < |mounts| && mounts[i].name == v {
      if v in names {
        var i :| 0 <= i < |names| && names[i] == v;
        assert mounts[i].name == v;
      }
      if i :| 0 <= i < |mounts| && mounts[i].name == v {
        assert names[i] == v;
      }
    }
  }

  // ---------- reading paths back ----------

  /** The trimmed name after its first slash. */
  function Rest(name: string): string {
    Join(Split(Trim(name))[1..])
  }

  predicate SlashAtEnd(s: string) {
    s != "" && (s[0] == '/' || s[|s| - 1] == '/')
  }

  lemma {:induction false} TrimFacts(s: string)
    ensures Trim(s) == s <==> !SlashAtEnd(s)
    ensures SlashAtEnd(s) ==> |Trim(s)| < |s|
  {
  }

  lemma {:induction false} TrimmedName(name: string)
    ensures var parts := Split(Trim(name));
            && '/' !in parts[0]
            && Trim(name) == if |parts| == 1 then parts[0] else parts[0] + "/" + Rest(name)
  {
    JoinOfSplit(Trim(name));
  }

  /** Volume name and subpath, put together again. */
  function Rejoined(m: VolumeMount, parts: nat): string {
    if parts == 1 then m.name else m.name + "/" + m.subPath
  }

  /**
    Without a run directory, volume name and subpath rejoin to the trimmed name
    exactly when what follows its first slash neither starts nor ends with one.
   */
  lemma {:induction false} PathRoundTripIff(e: Entry, runName: string)
    requires Named(e.io) && !e.io.useIntermediateDirectory
    ensures var name := e.io.name;
            Rejoined(MountOf(e, runName), |Split(Trim(name))|) == Trim(name) <==> !SlashAtEnd(Rest(name))
  {
    var name := e.io.name;
    TrimmedName(name);
    TrimFacts(Rest(name));
    TrimFacts(Trim(Rest(name)));
    JoinOfSplit(Trim(name));
  }

  /** Trimming a volume name, a slash and a path: the volume's own end is not touched. */
  lemma {:induction false} TrimmedVolumePath(volume: string, sub: string)
    requires volume != "" && '/' !in volume
    ensures Trim(volume + "/" + sub) == if sub == "" then volume else volume + "/" + TrimSuffix(sub)
  {
    var path := volume + "/" + sub;
    assert path[0] == volume[0];
    if sub == "" {
      assert path[..|path| - 1] == volume;
    } else {
      assert path[|path| - 1] == sub[|sub| - 1];
      assert path[..|path| - 1] == volume + "/" + sub[..|sub| - 1];
    }
  }

  lemma {:induction false} SamePrefix(a: string, b: string, c: string)
    ensures a + b == a + c <==> b == c
  {
    assert (a + b)[|a|..] == b && (a + c)[|a|..] == c;
  }

  /**
    Without an override, the mount path is the prefix, a slash and the trimmed
    name exactly when that name is a volume alone or continues with a path that
    is not empty and neither starts nor ends with a slash.
   */
  lemma {:induction false} DefaultMountPathIff(e: Entry, runName: string)
    requires Named(e.io) && e.io.mountPathOverride == ""
    ensures var name := e.io.name;
            MountOf(e, runName).mountPath == Prefix(e.io) + "/" + Trim(name) <==>
            '/' !in Trim(name) || (Rest(name) != "" && !SlashAtEnd(Rest(name)))
  {
    var name := e.io.name;
    var parts := Split(Trim(name));
    var sub := SubPath(parts);
    TrimmedName(name);
    JoinOfSplit(Trim(name));
    TrimmedVolumePath(parts[0], sub);
    SamePrefix(Prefix(e.io) + "/", Trim(parts[0] + "/" + sub), Trim(name));
    if |parts| > 1 {
      assert sub == Trim(Rest(name));
      TrimFacts(Rest(name));
      TrimFacts(sub);
      if sub != "" {
        SamePrefix(parts[0] + "/", TrimSuffix(sub), Rest(name));
      }
    }
  }

  lemma {:induction false} TrimForms(s: string)
    ensures Trim("/" + s + "/") == s
    ensures Trim("/" + s) == TrimSuffix(s) && (s != "" && s[0] != '/' ==> Trim(s + "/") == s)
  {
    assert ("/" + s + "/")[1..] == s + "/";
    assert (s + "/")[..|s|] == s;
    assert ("/" + s)[1..] == s;
  }

  /** A name is accepted exactly when something is left of it between its outer slashes that starts with no other. */
  lemma {:induction false} NamedIff(io: IOVolumeSpec)
    ensures Named(io) <==> Trim(io.name) != "" && Trim(io.name)[0] != '/'
  {
    TrimmedName(io.name);
    JoinOfSplit(Trim(io.name));
  }

  /** What the mount path has below its prefix. */
  ghost function BelowPrefix(io: IOVolumeSpec, volume: string): string {
    if io.mountPathOverride != "" then Trim(io.mountPathOverride)
    else if Trim(Rest(io.name)) == "" then volume
    else volume + "/" + TrimSuffix(Trim(Rest(io.name)))
  }

  lemma {:induction false} MountedBelow(e: Entry, runName: string)
    requires Named(e.io)
    ensures MountOf(e, runName).mountPath == Prefix(e.io) + "/" + BelowPrefix(e.io, MountOf(e, runName).name)
  {
    var parts := Split(Trim(e.io.name));
    JoinOfSplit(Trim(e.io.name));
    SubPathIsRest(e.io.name);
    TrimmedVolumePath(parts[0], SubPath(parts));
  }

  /** The mount path, from the prefix and the override as they are given. */
  lemma {:induction false} MountPathForms(e: Entry, runName: string)
    requires Named(e.io)
    ensures var path, prefix := MountOf(e, runName).mountPath, e.io.mountPrefix;
            var below := BelowPrefix(e.io, MountOf(e, runName).name);
            && (prefix == "" ==> path == "/data/pipeline" + "/" + below)
            && (prefix != "" && prefix[0] == '/' ==> path == prefix + "/" + below)
            && (prefix != "" && prefix[0] != '/' ==> path == "/" + prefix + "/" + below)
  {
    MountedBelow(e, runName);
  }

  lemma {:induction false} SubPathIsRest(name: string)
    ensures SubPath(Split(Trim(name))) == Trim(Rest(name))
  {
  }

  // ---------- run directories ----------

  /** The subpath in a run directory: the directory, and below it what follows the volume in the name. */
  lemma {:induction false} RunDirectoryPath(e: Entry, runName: string)
    requires Named(e.io) && e.io.useIntermediateDirectory && runName != "" && '/' !in runName
    ensures var below := Trim(Rest(e.io.name));
            MountOf(e, runName).subPath == if below == "" then runName else runName + "/" + TrimSuffix(below)
  {
    SubPathIsRest(e.io.name);
    TrimmedVolumePath(runName, Trim(Rest(e.io.name)));
  }

  /** With nothing to trim, two entries of a run share a subpath exactly when their names continue alike. */
  lemma {:induction false} RunPathsCollideIff(e: Entry, f: Entry, runName: string)
    requires Named(e.io) && e.io.useIntermediateDirectory && !SlashAtEnd(Rest(e.io.name))
    requires Named(f.io) && f.io.useIntermediateDirectory && !SlashAtEnd(Rest(f.io.name))
    requires runName != "" && '/' !in runName
    ensures MountOf(e, runName).subPath ==
            if Rest(e.io.name) == "" then runName else runName + "/" + Rest(e.io.name)
    ensures MountOf(e, runName).subPath == MountOf(f, runName).subPath <==> Rest(e.io.name) == Rest(f.io.name)
  {
    var a, b := Rest(e.io.name), Rest(f.io.name);
    RunDirectoryPath(e, runName);
    RunDirectoryPath(f, runName);
    TrimFacts(a);
    TrimFacts(b);
    SamePrefix(runName + "/", a, b);
  }

  /** In a run without its own directory the subpath is what follows the volume in the name. */
  lemma {:induction false} PlainSubPath(e: Entry, runName: string)
    requires Named(e.io) && !e.io.useIntermediateDirectory
    ensures MountOf(e, runName).subPath == Trim(Trim(Rest(e.io.name)))
  {
    SubPathIsRest(e.io.name);
  }

  /** The entries of a job by place: those of the run first, inputs before outputs, inputs only being read-only. */
  lemma {:induction false} EntriesByPlace(l: Lists, i: nat)
    ensures var a, b, c, d := |l.runInputs|, |l.runOutputs|, |l.inputs|, |l.outputs|;
            var es := Entries(l);
            && |es| == a + b + c + d
            && (i < a ==> es[i] == Entry(l.runInputs[i], true))
            && (i < b ==> es[a + i] == Entry(l.runOutputs[i], false))
            && (i < c ==> es[a + b + i] == Entry(l.inputs[i], true))
            && (i < d ==> es[a + b + c + i] == Entry(l.outputs[i], false))
  {
  }

  // ---------- run isolation ----------

  /** Path `a` is `b` or one of its parent directories. */
  predicate Contains(a: string, b: string) {
    a == b || (|a| < |b| && b[..|a|] == a && b[|a|] == '/')
  }

  function FirstSegment(s: string): string {
    if s == "" || s[0] == '/' then "" else [s[0]] + FirstSegment(s[1..])
  }

  lemma {:induction false} FirstSegmentOf(directory: string, tail: string)
    requires '/' !in directory && (tail == "" || tail[0] == '/')
    ensures FirstSegment(directory + tail) == directory
  {
    var s := directory + tail;
    if directory == "" {
      assert s == tail;
    } else {
      assert s[1..] == directory[1..] + tail;
      FirstSegmentOf(directory[1..], tail);
    }
  }

  lemma {:induction false} ContainsKeepsFirstSegment(a: string, b: string)
    requires Contains(a, b)
    ensures FirstSegment(a) == FirstSegment(b)
    decreases |a|
  {
    if a != b && a != "" {
      assert b[0] == a[0];
      if a[0] != '/' {
        assert b[1..][..|a| - 1] == a[1..];
        ContainsKeepsFirstSegment(a[1..], b[1..]);
      }
    }
  }

  lemma {:induction false} DirectoryFirst(e: Entry, runName: string)
    requires Named(e.io) && e.io.useIntermediateDirectory && runName != "" && '/' !in runName
    ensures FirstSegment(MountOf(e, runName).subPath) == runName
  {
    var sub := SubPath(Corpus(e.io.name).value);
    var path := runName + "/" + sub;
    assert path[0] == runName[0];
    assert TrimPrefix(path) == path;
    var tail := path[|runName|..];
    assert path == runName + tail && tail[0] == '/';
    if path[|path| - 1] == '/' {
      assert TrimSuffix(path) == runName + tail[..|tail| - 1];
      FirstSegmentOf(runName, tail[..|tail| - 1]);
    } else {
      FirstSegmentOf(runName, tail);
    }
  }

  /** Run isolation: with their own directories, no path of one run is a path of another run or a parent of one. */
  lemma {:induction false} RunsIsolated(e: Entry, f: Entry, run1: string, run2: string)
    requires Named(e.io) && e.io.useIntermediateDirectory && Named(f.io) && f.io.useIntermediateDirectory
    requires run1 != "" && '/' !in run1 && run2 != "" && '/' !in run2
    ensures Contains(MountOf(e, run1).subPath, MountOf(f, run2).subPath) ==> run1 == run2
  {
    DirectoryFirst(e, run1);
    DirectoryFirst(f, run2);
    if Contains(MountOf(e, run1).subPath, MountOf(f, run2).subPath) {
      ContainsKeepsFirstSegment(MountOf(e, run1).subPath, MountOf(f, run2).subPath);
    }
  }

  /** Runs are named after their pipeline and a hash; two such runs share a directory only if both agree. */
  lemma {:induction false} GeneratedRunsIsolated(
    e: Entry, f: Entry, pipeline: string, hash: nat, pipeline2: string, hash2: nat)
    requires Named(e.io) && e.io.useIntermediateDirectory && Named(f.io) && f.io.useIntermediateDirectory
    requires '/' !in pipeline && '/' !in pipeline2
    ensures Contains(MountOf(e, ShortName(pipeline, hash)).subPath, MountOf(f, ShortName(pipeline2, hash2)).subPath) ==>
              pipeline == pipeline2 && hash == hash2
  {
    ShortNameSlashFree(pipeline, hash);
    ShortNameSlashFree(pipeline2, hash2);
    RunsIsolated(e, f, ShortName(pipeline, hash), ShortName(pipeline2, hash2));
    ShortNameInjective(pipeline, hash, pipeline2, hash2);
  }
}
