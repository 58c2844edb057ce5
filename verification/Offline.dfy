/**
 Reading an archive from its files alone (`ReadArchive` in internal/audit/archive.go and
 cmd/cupel/audit.go): what the directory of segments holds, and when `cupel audit verify` approves
 it.
 */
module Offline {
  import opened Wrappers
  import opened Text
  import opened AuditNames
  import opened Records
  import opened Chain
  import opened Protocol
  import opened ProtocolSafety
  import opened Guarantees

  datatype DirEntry = Folder | File(data: string) | Unreadable

  type Directory = map<string, DirEntry>

  /** What is at the path that was given: something that cannot be listed, or a directory. */
  datatype Place = Unlistable | Listed(dir: Directory)

  type Decoder = string -> Option<seq<Record>>

  datatype ReadError = CannotList | CannotRead(name: string) | CannotParse(name: string)

  predicate EndsWith(s: string, suffix: string) {
    |suffix| <= |s| && s[|s| - |suffix|..] == suffix
  }

  predicate IsSegmentFile(dir: Directory, name: string) {
    name in dir && !dir[name].Folder? && EndsWith(name, ".jsonl")
  }

  function SegmentFiles(dir: Directory): set<string> {
    set n | n in dir && IsSegmentFile(dir, n)
  }

  function ReadOne(decode: Decoder, dir: Directory, name: string): Result<seq<Record>, ReadError> {
    if name !in dir || !dir[name].File? then Err(CannotRead(name))
    else match decode(dir[name].data)
         case None => Err(CannotParse(name))
         case Some(records) => Ok(records)
  }

  /** The records of the named files, one file after another, or the first failure. */
  function ReadAll(decode: Decoder, dir: Directory, names: seq<string>): Result<seq<Record>, ReadError> {
    if |names| == 0 then Ok([]) else Joined(ReadOne(decode, dir, names[0]), ReadAll(decode, dir, names[1..]))
  }

  function Joined(a: Result<seq<Record>, ReadError>, b: Result<seq<Record>, ReadError>)
    : Result<seq<Record>, ReadError>
  {
    if a.Err? then a else if b.Err? then b else Ok(a.value + b.value)
  }

  lemma JoinedEmpty(r: Result<seq<Record>, ReadError>)
    ensures Joined(Ok([]), r) == r && Joined(r, Ok([])) == r
  {
    if r.Ok? { assert [] + r.value == r.value && r.value + [] == r.value; }
  }

  /** The error is about the first of the named files that cannot be read or does not parse. */
  ghost predicate FirstUnreadable(decode: Decoder, dir: Directory, names: seq<string>, error: ReadError) {
    exists i ::
      && 0 <= i < |names| && FailsWith(decode, dir, names[i], error)
      && forall j :: 0 <= j < i ==> names[j] in dir && dir[names[j]].File? && decode(dir[names[j]].data).Some?
  }

  predicate FailsWith(decode: Decoder, dir: Directory, name: string, error: ReadError) {
    if name !in dir || !dir[name].File? then error == CannotRead(name)
    else decode(dir[name].data).None? && error == CannotParse(name)
  }

  lemma {:induction false} ReadsAllIff(decode: Decoder, dir: Directory, names: seq<string>)
    ensures ReadAll(decode, dir, names).Ok? <==>
            forall n :: n in names ==> n in dir && dir[n].File? && decode(dir[n].data).Some?
    ensures ReadAll(decode, dir, names).Err? ==>
              FirstUnreadable(decode, dir, names, ReadAll(decode, dir, names).error)
  {
    if |names| > 0 {
      var rest := names[1..];
      assert names == [names[0]] + rest;
      ReadsAllIff(decode, dir, rest);
      if ReadOne(decode, dir, names[0]).Err? {
        assert FailsWith(decode, dir, names[0], ReadOne(decode, dir, names[0]).error);
      } else if ReadAll(decode, dir, rest).Err? {
        LaterUnreadable(decode, dir, names[0], rest, ReadAll(decode, dir, rest).error);
      }
    }
  }

  lemma LaterUnreadable(decode: Decoder, dir: Directory, name: string, rest: seq<string>, error: ReadError)
    requires name in dir && dir[name].File? && decode(dir[name].data).Some?
    requires FirstUnreadable(decode, dir, rest, error)
    ensures FirstUnreadable(decode, dir, [name] + rest, error)
  {
    var names := [name] + rest;
    var i :| 0 <= i < |rest| && FailsWith(decode, dir, rest[i], error)
             && forall j :: 0 <= j < i ==> rest[j] in dir && dir[rest[j]].File? && decode(dir[rest[j]].data).Some?;
    assert FailsWith(decode, dir, names[i + 1], error);
    forall j | 0 <= j < i + 1
      ensures names[j] in dir && dir[names[j]].File? && decode(dir[names[j]].data).Some?
    {
      if j > 0 { assert names[j] == rest[j - 1]; }
    }
  }

  method ListNames(dir: Directory) returns (names: seq<string>)
    ensures names == SortedKeys(SegmentFiles(dir))
  {
    names := [];
    var rest := dir.Keys;
    while rest != {}
      invariant rest <= dir.Keys && Distinct(names)
      invariant forall n :: n in names <==> n in dir.Keys - rest && IsSegmentFile(dir, n)
      decreases rest
    {
      var n :| n in rest;
      assert n !in names;
      if IsSegmentFile(dir, n) { names := names + [n]; }
      rest := rest - {n};
    }
    SortOfEnumeration(names, SegmentFiles(dir));
    names := Sort(names);
  }

  /** `ReadArchive`: every segment in the directory, in name order. */
  method ReadArchive(decode: Decoder, place: Place)
    returns (r: Result<seq<Record>, ReadError>, names: seq<string>)
    ensures place.Unlistable? ==> r == Err(CannotList) && names == []
    ensures place.Listed? ==>
              && names == SortedKeys(SegmentFiles(place.dir)) && r == ReadAll(decode, place.dir, names)
              && StrictlySorted(names)
              && (forall n :: n in names <==>
                    n in place.dir && !place.dir[n].Folder? && |n| >= 6 && n[|n| - 6..] == ".jsonl")
              && (r.Ok? <==> forall n :: n in names ==>
                    place.dir[n].File? && decode(place.dir[n].data).Some?)
              && (r.Err? ==> FirstUnreadable(decode, place.dir, names, r.error))
  {
    if place.Unlistable? { return Err(CannotList), []; }
    names := ListNames(place.dir);
    r := ReadFiles(decode, place.dir, names);
    ArchiveRead(decode, place.dir, names);
  }

  // What the names are, and what it takes to read them all.
  lemma ArchiveRead(decode: Decoder, dir: Directory, names: seq<string>)
    requires names == SortedKeys(SegmentFiles(dir))
    ensures StrictlySorted(names)
    ensures forall n :: n in names <==> n in dir && !dir[n].Folder? && |n| >= 6 && n[|n| - 6..] == ".jsonl"
    ensures var r := ReadAll(decode, dir, names);
            && (r.Ok? <==> forall n :: n in names ==> dir[n].File? && decode(dir[n].data).Some?)
            && (r.Err? ==> FirstUnreadable(decode, dir, names, r.error))
  {
    NamesRead(dir, names);
    ReadsAllIff(decode, dir, names);
  }

  lemma NamesRead(dir: Directory, names: seq<string>)
    requires names == SortedKeys(SegmentFiles(dir))
    ensures StrictlySorted(names)
    ensures forall n :: n in names <==> n in dir && !dir[n].Folder? && |n| >= 6 && n[|n| - 6..] == ".jsonl"
  {
    SortedKeysEnumerates(SegmentFiles(dir));
    forall n ensures n in names <==> n in dir && !dir[n].Folder? && |n| >= 6 && n[|n| - 6..] == ".jsonl" {
      assert n in names <==> n in SegmentFiles(dir);
    }
  }

  // The second loop: one file after another, until one fails.
  method ReadFiles(decode: Decoder, dir: Directory, names: seq<string>) returns (r: Result<seq<Record>, ReadError>)
    ensures r == ReadAll(decode, dir, names)
  {
    var out: seq<Record> := [];
    var i := 0;
    assert names[0..] == names;
    JoinedEmpty(ReadAll(decode, dir, names));
    while i < |names|
      invariant 0 <= i <= |names|
      invariant ReadAll(decode, dir, names) == Joined(Ok(out), ReadAll(decode, dir, names[i..]))
    {
      if names[i] !in dir || !dir[names[i]].File? { return Err(CannotRead(names[i])); }
      var records := decode(dir[names[i]].data);
      if records.None? { return Err(CannotParse(names[i])); }
      assert names[i..][1..] == names[i + 1..];
      if ReadAll(decode, dir, names[i + 1..]).Ok? {
        Assoc(out, records.value, ReadAll(decode, dir, names[i + 1..]).value);
      }
      out := out + records.value;
      i := i + 1;
    }
    assert out + [] == out;
    return Ok(out);
  }

  // ---------- cupel audit verify ----------

  datatype Mismatch =
    | WrongCount(archived: nat, held: nat)
    | WrongEnd(head: string, published: string)
    | Unaccounted(recorded: nat, held: nat)
    | Rewritten(head: string, published: string)

  /** How an archive of this many records and this head differs from what the checkpoint says of it. */
  predicate Differs(n: nat, head: string, cp: Checkpoint, p: Mismatch) {
    match p
    case WrongCount(archived, held) => cp.archived.Some? && archived == cp.archived.value.length != n && held == n
    case WrongEnd(found, published) =>
      cp.archived.Some? && found == head && published == cp.archived.value.head != head
    case Unaccounted(recorded, held) => cp.archived.None? && recorded == cp.length > n && held == n
    case Rewritten(found, published) =>
      cp.archived.None? && cp.length == n && found == head && published == cp.head != head
  }

  /** `checkAgainstCheckpoint`. */
  method CheckAgainstCheckpoint(records: seq<Record>, head: string, cp: Checkpoint) returns (problems: seq<Mismatch>)
    ensures problems == Mismatches(|records|, head, cp)
    ensures problems == [] <==>
            match cp.archived
            case Some(a) => |records| == a.length && head == a.head
            case None => cp.length < |records| || (cp.length == |records| && cp.head == head)
    ensures forall p :: p in problems <==> Differs(|records|, head, cp, p)
    ensures |problems| == 2 ==> problems[0].WrongCount? && problems[1].WrongEnd?
    ensures |problems| <= 2
  {
    problems := [];
    var n := |records|;
    if cp.archived.Some? {
      var a := cp.archived.value;
      if n != a.length { problems := problems + [WrongCount(a.length, n)]; }
      if head != a.head { problems := problems + [WrongEnd(head, a.head)]; }
      return;
    }
    if n < cp.length {
      problems := problems + [Unaccounted(cp.length, n)];
    } else if n == cp.length && head != cp.head {
      problems := problems + [Rewritten(head, cp.head)];
    }
  }

  function Mismatches(n: nat, head: string, cp: Checkpoint): seq<Mismatch> {
    match cp.archived
    case Some(a) =>
      (if n != a.length then [WrongCount(a.length, n)] else [])
      + (if head != a.head then [WrongEnd(head, a.head)] else [])
    case None =>
      if n < cp.length then [Unaccounted(cp.length, n)]
      else if n == cp.length && head != cp.head then [Rewritten(head, cp.head)]
      else []
  }

  datatype Exit = Approved | Quarantined | Failed | Crashed

  /** What became of the checkpoint the command was given, if it was given one. */
  datatype CheckpointFile = NotGiven | CannotOpen | NotACheckpoint | Parsed(cp: Checkpoint)

  predicate Usable(file: CheckpointFile) {
    !file.CannotOpen? && !file.NotACheckpoint?
  }

  function Supplied(file: CheckpointFile): Option<Checkpoint> {
    if file.Parsed? then Some(file.cp) else None
  }

  /** A file that holds this checkpoint, or no file. */
  function Given(cp: Option<Checkpoint>): (file: CheckpointFile)
    ensures Usable(file) && Supplied(file) == cp
  {
    if cp.Some? then Parsed(cp.value) else NotGiven
  }

  /** The archive verifies from the beginning and is the one the checkpoint describes, if there is one. */
  predicate PassesAudit(h: Hash, records: seq<Record>, cp: Option<Checkpoint>) {
    && Verified(h, records, None, None).valid
    && (cp.Some? ==> Mismatches(|records|, Verified(h, records, None, None).head, cp.value) == [])
  }

  /** How `cupel audit verify` ends. Printing the range of an archive without records crashes. */
  function AuditExit(h: Hash, decode: Decoder, place: Place, file: CheckpointFile, asJson: bool): Exit {
    if place.Unlistable? then Failed else ExitOn(h, decode, place.dir, file, asJson)
  }

  function ExitOn(h: Hash, decode: Decoder, dir: Directory, file: CheckpointFile, asJson: bool): Exit {
    var names := SortedKeys(SegmentFiles(dir));
    var read := ReadAll(decode, dir, names);
    if read.Err? || |names| == 0 || !Usable(file) then Failed
    else if !asJson && |read.value| == 0 then Crashed
    else if PassesAudit(h, read.value, Supplied(file)) then Approved
    else Quarantined
  }

  /** The records are as many, and end, as the checkpoint says of what was archived, or of the chain. */
  predicate Fits(records: seq<Record>, cp: Checkpoint) {
    var head := if |records| == 0 then GENESIS_HASH else records[|records| - 1].hash;
    match cp.archived
    case Some(a) => |records| == a.length && head == a.head
    case None => |records| > cp.length || (|records| == cp.length && head == cp.head)
  }

  // What each way of ending means for what is in the directory.
  lemma ExitMeans(
    h: Hash, decode: Decoder, dir: Directory, file: CheckpointFile, asJson: bool, names: seq<string>,
    records: seq<Record>)
    requires names == SortedKeys(SegmentFiles(dir))
    requires ReadAll(decode, dir, names).Ok? ==> ReadAll(decode, dir, names).value == records
    ensures var exit := ExitOn(h, decode, dir, file, asJson);
            var sound := Linked(h, records, 0, GENESIS_HASH) && (file.Parsed? ==> Fits(records, file.cp));
            && (exit == Failed <==> !Usable(file) || names == [] || ReadAll(decode, dir, names).Err?)
            && (exit != Failed ==>
                && (exit == Crashed <==> !asJson && records == [])
                && (exit == Approved <==> (asJson || records != []) && sound)
                && (exit == Quarantined <==> (asJson || records != []) && !sound))
  {
    ValidIffLinked(h, records, None, None);
  }

  lemma NothingReadIff(decode: Decoder, dir: Directory, names: seq<string>)
    requires names == SortedKeys(SegmentFiles(dir))
    ensures names == [] <==> forall n :: n in dir ==> !IsSegmentFile(dir, n)
    ensures ReadAll(decode, dir, names).Err? <==>
            exists n :: n in dir && IsSegmentFile(dir, n) && (dir[n].Unreadable? || decode(dir[n].data).None?)
  {
    SortedKeysEnumerates(SegmentFiles(dir));
    NoSegmentsIff(dir, names);
    ReadsAllIff(decode, dir, names);
  }

  /** `runAuditVerify` from the point where the arguments have been parsed. */
  method AuditVerify(
    digest: Digest, ghost h: Hash, decode: Decoder, place: Place, file: CheckpointFile, asJson: bool)
    returns (exit: Exit, records: seq<Record>)
    requires Implements(h, digest)
    ensures exit == AuditExit(h, decode, place, file, asJson)
    ensures exit == Failed <==>
            || file.CannotOpen? || file.NotACheckpoint? || place.Unlistable?
            || (forall n :: n in place.dir ==> !IsSegmentFile(place.dir, n))
            || exists n :: n in place.dir && IsSegmentFile(place.dir, n)
                 && (place.dir[n].Unreadable? || decode(place.dir[n].data).None?)
    ensures exit != Failed ==>
              var sound := Linked(h, records, 0, GENESIS_HASH) && (file.Parsed? ==> Fits(records, file.cp));
              && ReadAll(decode, place.dir, SortedKeys(SegmentFiles(place.dir))) == Ok(records)
              && (exit == Crashed <==> !asJson && records == [])
              && (exit == Approved <==> (asJson || records != []) && sound)
              && (exit == Quarantined <==> (asJson || records != []) && !sound)
  {
    var read, segments := ReadArchive(decode, place);
    records := if read.Ok? then read.value else [];
    if place.Listed? {
      ExitMeans(h, decode, place.dir, file, asJson, segments, records);
      NothingReadIff(decode, place.dir, segments);
    }
    if read.Err? { return Failed, records; }
    if |segments| == 0 { return Failed, records; }
    if file.CannotOpen? { return Failed, records; }
    if file.NotACheckpoint? { return Failed, records; }
    var v := Chain.Verify(digest, h, records, None);
    var valid := v.valid;
    if valid && file.Parsed? {
      var problems := CheckAgainstCheckpoint(records, v.head, file.cp);
      valid := problems == [];
    }
    if !asJson && |records| == 0 { return Crashed, records; }
    return if valid then Approved else Quarantined, records;
  }

  lemma NoSegmentsIff(dir: Directory, names: seq<string>)
    requires forall n :: n in names <==> n in dir && IsSegmentFile(dir, n)
    ensures names == [] <==> forall n :: n in dir ==> !IsSegmentFile(dir, n)
  {
    if |names| > 0 { assert names[0] in names; }
  }

  lemma {:induction false} NoRecordsIff(decode: Decoder, dir: Directory, names: seq<string>)
    ensures ReadAll(decode, dir, names) == Ok([]) <==> forall n :: n in names ==> Blank(decode, dir, n)
  {
    if |names| > 0 {
      NoRecordsIff(decode, dir, names[1..]);
      NothingJoined(ReadOne(decode, dir, names[0]), ReadAll(decode, dir, names[1..]));
      assert (forall n :: n in names ==> Blank(decode, dir, n)) <==>
             Blank(decode, dir, names[0]) && forall n :: n in names[1..] ==> Blank(decode, dir, n) by {
        assert names == [names[0]] + names[1..];
      }
    }
  }

  lemma NothingJoined(a: Result<seq<Record>, ReadError>, b: Result<seq<Record>, ReadError>)
    ensures Joined(a, b) == Ok([]) <==> a == Ok([]) && b == Ok([])
  {
    if a.Ok? && b.Ok? { assert |a.value + b.value| == |a.value| + |b.value|; }
  }

  /**
   In text mode the command prints the sequence numbers of the first and the last record without
   looking whether there is one. It crashes exactly on directories that have segment files and no
   records in any of them.
   */
  lemma CrashesIff(h: Hash, decode: Decoder, place: Place, file: CheckpointFile, asJson: bool)
    ensures AuditExit(h, decode, place, file, asJson) == Crashed <==>
            && !asJson && Usable(file) && place.Listed? && SegmentFiles(place.dir) != {}
            && forall n :: n in SegmentFiles(place.dir) ==> Blank(decode, place.dir, n)
  {
    if place.Listed? { CrashesOnIff(h, decode, place.dir, file, asJson); }
  }

  lemma CrashesOnIff(h: Hash, decode: Decoder, dir: Directory, file: CheckpointFile, asJson: bool)
    ensures ExitOn(h, decode, dir, file, asJson) == Crashed <==>
            && !asJson && Usable(file) && SegmentFiles(dir) != {}
            && forall n :: n in SegmentFiles(dir) ==> Blank(decode, dir, n)
  {
    var names := SortedKeys(SegmentFiles(dir));
    SortedKeysEnumerates(SegmentFiles(dir));
    NoRecordsIff(decode, dir, names);
    assert SegmentFiles(dir) != {} <==> |names| > 0 by {
      if |names| > 0 { assert names[0] in names; }
    }
  }

  // ---------- the published segments, by name ----------

  function NameOf(s: Segment): string {
    SegmentName(s.first, s.last)
  }

  function PublishedNames(published: seq<Segment>): (names: seq<string>)
    ensures |names| == |published|
    ensures forall i :: 0 <= i < |names| ==> names[i] == NameOf(published[i])
  {
    if |published| == 0 then []
    else PublishedNames(published[..|published| - 1]) + [NameOf(published[|published| - 1])]
  }

  lemma {:induction false} TilesAscend(published: seq<Segment>, boundary: nat, i: nat, j: nat)
    requires Tiles(published, boundary) && i < j < |published|
    ensures published[i].last < published[j].first
    decreases j - i
  {
    if i + 1 < j {
      TilesAscend(published, boundary, i, j - 1);
      assert published[j - 1].first <= published[j - 1].last;
    }
  }

  // The segments were published in the order their names sort in.
  lemma PublishedNamesSorted(published: seq<Segment>, boundary: nat)
    requires Tiles(published, boundary) && boundary < Pow10(WIDTH)
    ensures StrictlySorted(PublishedNames(published))
  {
    var names := PublishedNames(published);
    forall i, j | 0 <= i < j < |names| ensures Less(names[i], names[j]) {
      var a, b := published[i], published[j];
      TilesAscend(published, boundary, i, j);
      TileWithinBoundary(published, boundary, i);
      TileWithinBoundary(published, boundary, j);
      SegmentNameOrder(a.first, a.last, b.first, b.last);
    }
  }

  /** The directory holds every published segment as the sink has it, and may hold other files. */
  ghost predicate HoldsPublished(dir: Directory, w: World) {
    forall i :: 0 <= i < |w.published| ==>
      && w.published[i] in w.sink
      && NameOf(w.published[i]) in dir
      && dir[NameOf(w.published[i])] == File(w.sink[w.published[i]])
  }

  lemma SegmentNamesEnd(s: Segment)
    ensures EndsWith(NameOf(s), ".jsonl")
  {
    var head := "audit-" + (Pad(s.first, WIDTH) + (['-'] + Pad(s.last, WIDTH)));
    assert NameOf(s) == head + ".jsonl";
  }

  // ---------- what the other files contribute ----------

  function Keep(names: seq<string>, wanted: seq<string>): seq<string> {
    if |names| == 0 then []
    else (if names[0] in wanted then [names[0]] else []) + Keep(names[1..], wanted)
  }

  lemma {:induction false} KeptMembers(names: seq<string>, wanted: seq<string>, n: string)
    ensures n in Keep(names, wanted) <==> n in names && n in wanted
  {
    if |names| > 0 {
      assert names == [names[0]] + names[1..];
      KeptMembers(names[1..], wanted, n);
    }
  }

  lemma {:induction false} KeepIsSorted(names: seq<string>, wanted: seq<string>)
    requires StrictlySorted(names)
    ensures StrictlySorted(Keep(names, wanted))
  {
    if |names| > 0 {
      var rest := Keep(names[1..], wanted);
      KeepIsSorted(names[1..], wanted);
      forall n | n in rest ensures Less(names[0], n) { KeptMembers(names[1..], wanted, n); }
      if names[0] in wanted { StrictCons(names[0], rest); }
    }
  }

  lemma KeepPublished(files: set<string>, wanted: seq<string>)
    requires StrictlySorted(wanted) && forall n :: n in wanted ==> n in files
    ensures Keep(SortedKeys(files), wanted) == wanted
  {
    SortedKeysEnumerates(files);
    KeepIsSorted(SortedKeys(files), wanted);
    forall n ensures n in Keep(SortedKeys(files), wanted) <==> n in wanted {
      KeptMembers(SortedKeys(files), wanted, n);
    }
    StrictlySortedUnique(Keep(SortedKeys(files), wanted), wanted);
  }

  lemma KeepStep(decode: Decoder, dir: Directory, names: seq<string>, wanted: seq<string>)
    requires |names| > 0
    ensures names[0] in wanted ==>
              ReadAll(decode, dir, Keep(names, wanted)) ==
              Joined(ReadOne(decode, dir, names[0]), ReadAll(decode, dir, Keep(names[1..], wanted)))
    ensures names[0] !in wanted ==> Keep(names, wanted) == Keep(names[1..], wanted)
  {
    var kept := Keep(names[1..], wanted);
    assert ([names[0]] + kept)[1..] == kept && [] + kept == kept;
  }

  predicate Blank(decode: Decoder, dir: Directory, name: string) {
    ReadOne(decode, dir, name) == Ok([])
  }

  predicate OthersBlank(decode: Decoder, dir: Directory, names: seq<string>, wanted: seq<string>) {
    forall n :: n in names && n !in wanted ==> Blank(decode, dir, n)
  }

  lemma {:induction false} BlankFilesAddNothing(
    decode: Decoder, dir: Directory, names: seq<string>, wanted: seq<string>)
    requires OthersBlank(decode, dir, names, wanted)
    ensures ReadAll(decode, dir, names) == ReadAll(decode, dir, Keep(names, wanted))
  {
    if |names| > 0 {
      assert names == [names[0]] + names[1..];
      BlankFilesAddNothing(decode, dir, names[1..], wanted);
      KeepStep(decode, dir, names, wanted);
      if names[0] !in wanted {
        assert Blank(decode, dir, names[0]);
        JoinedEmpty(ReadAll(decode, dir, names[1..]));
      }
    }
  }

  // Files that hold records lengthen the archive.
  lemma {:induction false} OtherFilesLengthen(
    decode: Decoder, dir: Directory, names: seq<string>, wanted: seq<string>)
    requires ReadAll(decode, dir, names).Ok?
    ensures ReadAll(decode, dir, Keep(names, wanted)).Ok?
    ensures |ReadAll(decode, dir, names).value| >= |ReadAll(decode, dir, Keep(names, wanted)).value|
    ensures |ReadAll(decode, dir, names).value| == |ReadAll(decode, dir, Keep(names, wanted)).value| ==>
              OthersBlank(decode, dir, names, wanted)
  {
    if |names| > 0 {
      assert names == [names[0]] + names[1..];
      OtherFilesLengthen(decode, dir, names[1..], wanted);
      KeepStep(decode, dir, names, wanted);
    }
  }

  lemma {:induction false} ReadAllSnoc(decode: Decoder, dir: Directory, names: seq<string>, n: string)
    ensures ReadAll(decode, dir, names + [n]) == Joined(ReadAll(decode, dir, names), ReadOne(decode, dir, n))
  {
    var all := names + [n];
    if |names| == 0 {
      assert all == [n] && all[1..] == [];
      JoinedEmpty(ReadOne(decode, dir, n));
    } else {
      assert all[1..] == names[1..] + [n] && all[0] == names[0];
      ReadAllSnoc(decode, dir, names[1..], n);
      JoinedAssoc(ReadOne(decode, dir, names[0]), ReadAll(decode, dir, names[1..]), ReadOne(decode, dir, n));
    }
  }

  lemma JoinedAssoc(
    a: Result<seq<Record>, ReadError>, b: Result<seq<Record>, ReadError>, d: Result<seq<Record>, ReadError>)
    ensures Joined(a, Joined(b, d)) == Joined(Joined(a, b), d)
  {
    if a.Ok? && b.Ok? && d.Ok? { Assoc(a.value, b.value, d.value); }
  }

  // ---------- what the published segments decode to ----------

  /** Intact from the beginning, as long as this prefix of the history and carrying its hashes. */
  ghost predicate CopyOf(h: Hash, rs: seq<Record>, history: seq<Record>, n: nat) {
    && |rs| == n <= |history|
    && Linked(h, rs, 0, GENESIS_HASH)
    && HeadAfter(rs, GENESIS_HASH) == HashAt(history, n)
  }

  /** Intact from where it attaches to the history, as long as the run of records it stands for. */
  ghost predicate StandsFor(h: Hash, back: seq<Record>, history: seq<Record>, from: nat, to: nat) {
    && from < to <= |history| && |back| == to - from
    && Linked(h, back, from, HashAt(history, from))
    && back[|back| - 1].hash == history[to - 1].hash
  }

  lemma CopyGrows(c: Config, rs: seq<Record>, back: seq<Record>, history: seq<Record>, from: nat, to: nat)
    requires CopyOf(c.hash, rs, history, from) && StandsFor(c.hash, back, history, from, to)
    ensures CopyOf(c.hash, rs + back, history, to)
  {
    LinkedSplit(c.hash, rs, back, 0, GENESIS_HASH);
    HeadAfterBoth(rs, back, GENESIS_HASH);
  }

  lemma DecodedLike(c: Config, cut: seq<Record>)
    requires KeepsHashes(c) && c.decode(c.encode(cut)).Some? && |cut| > 0
    ensures var back := c.decode(c.encode(cut)).value;
            |back| == |cut| && back[|back| - 1].hash == cut[|cut| - 1].hash
  {
  }

  lemma SegmentDecodes(c: Config, sink: map<Segment, string>, history: seq<Record>, s: Segment)
    requires KeepsHashes(c) && Holds(c, sink, history, s)
    ensures s.first >= 1 && s in sink && c.decode(sink[s]).Some?
    ensures StandsFor(c.hash, c.decode(sink[s]).value, history, s.first - 1, s.last)
  {
    DecodedLike(c, history[s.first - 1..s.last]);
  }

  /** The directory has a readable file for a segment, and what decodes from it stands for its records. */
  ghost predicate ReadsAs(h: Hash, decode: Decoder, dir: Directory, history: seq<Record>, s: Segment) {
    && s.first >= 1 && ReadOne(decode, dir, NameOf(s)).Ok?
    && StandsFor(h, ReadOne(decode, dir, NameOf(s)).value, history, s.first - 1, s.last)
  }

  /** Each segment starts where the one before it ended, and the last ends at the boundary. */
  ghost predicate Adjoining(published: seq<Segment>, boundary: nat)
    decreases |published|
  {
    var n := |published| - 1;
    if n < 0 then boundary == 0
    else
      && published[n].first >= 1 && published[n].last == boundary
      && Adjoining(published[..n], published[n].first - 1)
  }

  lemma {:induction false} TilesAdjoin(published: seq<Segment>, boundary: nat)
    requires Tiles(published, boundary)
    ensures Adjoining(published, boundary)
    decreases |published|
  {
    if |published| > 0 {
      var n := |published| - 1;
      if n > 0 { assert published[n].first == published[n - 1].last + 1; }
      TilesAdjoin(published[..n], published[n].first - 1);
    }
  }

  lemma {:induction false} PublishedDecodes(
    c: Config, dir: Directory, history: seq<Record>, published: seq<Segment>, boundary: nat)
    requires Adjoining(published, boundary)
    requires forall s :: s in published ==> ReadsAs(c.hash, c.decode, dir, history, s)
    ensures var read := ReadAll(c.decode, dir, PublishedNames(published));
            read.Ok? && CopyOf(c.hash, read.value, history, boundary)
    decreases |published|
  {
    if |published| > 0 {
      var n := |published| - 1;
      PublishedDecodes(c, dir, history, published[..n], published[n].first - 1);
      DecodeStep(c, dir, history, PublishedNames(published[..n]), published[n]);
    }
  }

  // One more published segment, read after those before it.
  lemma DecodeStep(c: Config, dir: Directory, history: seq<Record>, names: seq<string>, s: Segment)
    requires ReadsAs(c.hash, c.decode, dir, history, s) && ReadAll(c.decode, dir, names).Ok?
    requires CopyOf(c.hash, ReadAll(c.decode, dir, names).value, history, s.first - 1)
    ensures var read := ReadAll(c.decode, dir, names + [NameOf(s)]);
            read.Ok? && CopyOf(c.hash, read.value, history, s.last)
  {
    ReadAllSnoc(c.decode, dir, names, NameOf(s));
    CopyGrows(c, ReadAll(c.decode, dir, names).value, ReadOne(c.decode, dir, NameOf(s)).value, history,
      s.first - 1, s.last);
  }

  lemma PublishedReads(c: Config, w: World, dir: Directory, i: nat)
    requires KeepsHashes(c) && ArchiveOk(c, w) && HoldsPublished(dir, w) && i < |w.published|
    ensures ReadsAs(c.hash, c.decode, dir, w.history, w.published[i])
  {
    assert Holds(c, w.sink, w.history, w.published[i]);
    SegmentDecodes(c, w.sink, w.history, w.published[i]);
  }

  lemma AllPublishedDecodes(c: Config, w: World, dir: Directory)
    requires KeepsHashes(c) && ArchiveOk(c, w) && HoldsPublished(dir, w)
    ensures var read := ReadAll(c.decode, dir, PublishedNames(w.published));
            read.Ok? && CopyOf(c.hash, read.value, w.history, Boundary(w))
  {
    forall i | 0 <= i < |w.published| ensures ReadsAs(c.hash, c.decode, dir, w.history, w.published[i]) {
      PublishedReads(c, w, dir, i);
    }
    TilesAdjoin(w.published, Boundary(w));
    PublishedDecodes(c, dir, w.history, w.published, Boundary(w));
  }

  lemma PublishedAreFiles(c: Config, w: World, dir: Directory)
    requires HoldsPublished(dir, w)
    ensures forall n :: n in PublishedNames(w.published) ==> n in SegmentFiles(dir)
  {
    forall n | n in PublishedNames(w.published) ensures n in SegmentFiles(dir) {
      var i :| 0 <= i < |w.published| && PublishedNames(w.published)[i] == n;
      SegmentNamesEnd(w.published[i]);
    }
  }

  // A list that verifies passes the comparison exactly when it reaches the archived length and head.
  lemma SoundIff(c: Config, w: World, records: seq<Record>)
    requires Sound(c) && Core(c, w) && Boundary(w) > 0
    ensures PassesAudit(c.hash, records, Published(w)) <==>
            && Linked(c.hash, records, 0, GENESIS_HASH)
            && |records| == Boundary(w)
            && HeadAfter(records, GENESIS_HASH) == HashAt(w.history, Boundary(w))
  {
    ValidIffLinked(c.hash, records, None, None);
    PublishedAnchor(c, w);
  }

  lemma ListedPublished(c: Config, w: World, dir: Directory)
    requires Core(c, w) && HoldsPublished(dir, w) && Boundary(w) < Pow10(WIDTH)
    ensures Keep(SortedKeys(SegmentFiles(dir)), PublishedNames(w.published)) == PublishedNames(w.published)
  {
    PublishedNamesSorted(w.published, Boundary(w));
    PublishedAreFiles(c, w, dir);
    KeepPublished(SegmentFiles(dir), PublishedNames(w.published));
  }

  // The archive passes exactly when the files beside the published ones add nothing.
  lemma OthersDecide(c: Config, w: World, dir: Directory, names: seq<string>)
    requires Sound(c) && KeepsHashes(c) && Core(c, w) && HoldsPublished(dir, w)
    requires 0 < Boundary(w) < Pow10(WIDTH) && names == SortedKeys(SegmentFiles(dir))
    ensures var read := ReadAll(c.decode, dir, names);
            && (OthersBlank(c.decode, dir, names, PublishedNames(w.published)) <==>
                read.Ok? && PassesAudit(c.hash, read.value, Published(w)))
            && (read.Ok? ==> |read.value| > 0 && |names| > 0)
  {
    var wanted, read := PublishedNames(w.published), ReadAll(c.decode, dir, names);
    ListedPublished(c, w, dir);
    AllPublishedDecodes(c, w, dir);
    if OthersBlank(c.decode, dir, names, wanted) { BlankFilesAddNothing(c.decode, dir, names, wanted); }
    if read.Ok? {
      OtherFilesLengthen(c.decode, dir, names, wanted);
      SoundIff(c, w, read.value);
    }
  }

  /**
   The offline check is exact. Take any directory that holds the segments published so far,
   possibly among other files, and the checkpoint as published: `cupel audit verify` approves it
   if and only if every other segment file is readable and holds no records. In particular it
   approves a directory with nothing else in it, and does not approve one in which an interrupted
   run left a segment whose boundary was never published.
   */
  lemma OfflineCheckIsExact(c: Config, w: World, dir: Directory, asJson: bool)
    requires Sound(c) && KeepsHashes(c) && Reachable(c, w) && !w.overrun && HoldsPublished(dir, w)
    requires 0 < Boundary(w) < Pow10(WIDTH)
    ensures AuditExit(c.hash, c.decode, Listed(dir), Given(Published(w)), asJson) == Approved <==>
            forall n :: n in SegmentFiles(dir) && n !in PublishedNames(w.published) ==> Blank(c.decode, dir, n)
  {
    ReachableIsGood(c, w);
    var names := SortedKeys(SegmentFiles(dir));
    OthersDecide(c, w, dir, names);
    SortedKeysEnumerates(SegmentFiles(dir));
  }

  /** The segment files in the directory are the sink's, by the names its segments have. */
  ghost predicate SinkDirectory(dir: Directory, sink: map<Segment, string>) {
    && (forall s :: s in sink ==> NameOf(s) in dir && dir[NameOf(s)] == File(sink[s]))
    && (forall n :: IsSegmentFile(dir, n) ==> exists s :: s in sink && NameOf(s) == n)
  }

  lemma NamedPublished(published: seq<Segment>, s: Segment)
    ensures NameOf(s) in PublishedNames(published) <==> s in published
  {
    if NameOf(s) in PublishedNames(published) {
      var i :| 0 <= i < |published| && PublishedNames(published)[i] == NameOf(s);
      SegmentNameInjective(s.first, s.last, published[i].first, published[i].last);
    }
    if s in published {
      var i :| 0 <= i < |published| && published[i] == s;
      assert PublishedNames(published)[i] == NameOf(s);
    }
  }

  lemma SinkHoldsPublished(c: Config, w: World, dir: Directory)
    requires ArchiveOk(c, w) && SinkDirectory(dir, w.sink)
    ensures HoldsPublished(dir, w)
  {
    forall i | 0 <= i < |w.published| ensures w.published[i] in w.sink {
      assert Holds(c, w.sink, w.history, w.published[i]);
    }
  }

  lemma OrphansByName(decode: Decoder, dir: Directory, sink: map<Segment, string>, published: seq<Segment>)
    requires SinkDirectory(dir, sink)
    ensures (forall n :: n in SegmentFiles(dir) && n !in PublishedNames(published) ==> Blank(decode, dir, n)) <==>
            (forall s :: s in sink && s !in published ==> decode(sink[s]) == Some([]))
  {
    forall s | s in sink
      ensures NameOf(s) in SegmentFiles(dir)
      ensures NameOf(s) in PublishedNames(published) <==> s in published
      ensures Blank(decode, dir, NameOf(s)) <==> decode(sink[s]) == Some([])
    {
      SegmentNamesEnd(s);
      NamedPublished(published, s);
    }
  }

  /**
   For the directory the archiver itself writes: it is approved if and only if no segment without a
   published boundary holds records. Completed runs leave no such segment.
   */
  lemma SinkVerifiesIffNoOrphans(c: Config, w: World, dir: Directory, asJson: bool)
    requires Sound(c) && KeepsHashes(c) && Reachable(c, w) && !w.overrun && SinkDirectory(dir, w.sink)
    requires 0 < Boundary(w) < Pow10(WIDTH)
    ensures AuditExit(c.hash, c.decode, Listed(dir), Given(Published(w)), asJson) == Approved <==>
            forall s :: s in w.sink && s !in w.published ==> c.decode(w.sink[s]) == Some([])
  {
    ReachableIsGood(c, w);
    SinkHoldsPublished(c, w, dir);
    OfflineCheckIsExact(c, w, dir, asJson);
    OrphansByName(c.decode, dir, w.sink, w.published);
  }

  /**
   And it is sound for any directory whatever: one that is approved against a published checkpoint
   holds the archived prefix of the history, record for record and to the second, unless the hash
   collides between the two.
   */
  lemma ApprovedArchiveIsThePrefix(c: Config, digest: Digest, w: World, dir: Directory, asJson: bool)
    requires Sound(c) && Implements(c.hash, digest) && Clean(c.hash)
    requires Reachable(c, w) && !w.overrun && Boundary(w) > 0
    requires AuditExit(c.hash, c.decode, Listed(dir), Given(Published(w)), asJson) == Approved
    ensures Boundary(w) <= |w.history|
    ensures var records := ReadAll(c.decode, dir, SortedKeys(SegmentFiles(dir))).value;
            || SameToTheSecond(records, w.history[..Boundary(w)])
            || Collision(c.hash, records, w.history[..Boundary(w)])
  {
    ReachableIsGood(c, w);
    var records := ReadAll(c.decode, dir, SortedKeys(SegmentFiles(dir))).value;
    SoundIff(c, w, records);
    BoundaryWithinHistory(c, w);
    StretchIsLinked(c, w.history, 0, Boundary(w));
    assert w.history[0..Boundary(w)] == w.history[..Boundary(w)];
    HeadAfterPrefix(w.history, Boundary(w));
    UniqueHistory(c.hash, digest, records, w.history[..Boundary(w)], 0, GENESIS_HASH);
  }

  /**
   An approved archive and the records still in the cluster are one chain: joined, they verify from
   the beginning against the checkpoint.
   */
  lemma ArchiveContinuesInTheCluster(c: Config, w: World, records: seq<Record>)
    requires Sound(c) && Reachable(c, w) && !w.overrun && Boundary(w) > 0
    requires PassesAudit(c.hash, records, Published(w))
    ensures Verified(c.hash, records + Retained(w), None, Published(w)).valid
  {
    ReachableIsGood(c, w);
    SoundIff(c, w, records);
    BoundaryWithinHistory(c, w);
    RetainedVerifies(c, w);
    PublishedAnchor(c, w);
    ContinuesFrom(c, records, Retained(w), Published(w), Boundary(w), HashAt(w.history, Boundary(w)));
  }

  lemma ContinuesFrom(
    c: Config, a: seq<Record>, b: seq<Record>, cp: Option<Checkpoint>, offset: nat, head: string)
    requires Linked(c.hash, a, 0, GENESIS_HASH) && |a| == offset && HeadAfter(a, GENESIS_HASH) == head
    requires Verified(c.hash, b, AnchorOf(cp), cp).valid
    requires Offset(AnchorOf(cp)) == offset && Start(AnchorOf(cp)) == head
    ensures Verified(c.hash, a + b, None, cp).valid
  {
    ValidIffLinked(c.hash, b, AnchorOf(cp), cp);
    JoinedLinked(c.hash, a, b, head);
    ValidIffLinked(c.hash, a + b, None, cp);
  }

  lemma JoinedLinked(h: Hash, a: seq<Record>, b: seq<Record>, head: string)
    requires Linked(h, a, 0, GENESIS_HASH) && HeadAfter(a, GENESIS_HASH) == head
    requires Linked(h, b, |a|, head)
    ensures Linked(h, a + b, 0, GENESIS_HASH) && HeadAfter(a + b, GENESIS_HASH) == HeadAfter(b, head)
  {
    LinkedSplit(h, a, b, 0, GENESIS_HASH);
    HeadAfterBoth(a, b, GENESIS_HASH);
  }

  // ---------- the command line ----------

  predicate IsFlag(a: string) {
    |a| > 0 && a[0] == '-'
  }

  predicate TakesValue(a: string) {
    a == "-checkpoint" || a == "--checkpoint"
  }

  /** `splitPositional`: the first bare argument, and everything else in order. */
  method SplitPositional(args: seq<string>) returns (positional: string, rest: seq<string>)
    ensures (positional, rest) == Lifted(args, "")
  {
    positional, rest := "", [];
    var i := 0;
    assert args[0..] == args;
    while i < |args|
      invariant 0 <= i <= |args|
      invariant Lifted(args, "").0 == Lifted(args[i..], positional).0
      invariant Lifted(args, "").1 == rest + Lifted(args[i..], positional).1
    {
      var a := args[i];
      LiftedStep(args[i..], positional, rest);
      assert args[i..][1..] == args[i + 1..];
      if IsFlag(a) {
        rest := rest + [a];
        if '=' !in a && TakesValue(a) && i + 1 < |args| {
          assert args[i..][2..] == args[i + 2..];
          i := i + 1;
          rest := rest + [args[i]];
        }
      } else if positional == "" {
        positional := a;
      } else {
        rest := rest + [a];
      }
      i := i + 1;
    }
    assert rest + [] == rest;
  }

  // What one turn of the loop does to what is left to do.
  lemma LiftedStep(args: seq<string>, found: string, rest: seq<string>)
    requires |args| > 0
    ensures IsFlag(args[0]) && !(TakesValue(args[0]) && |args| > 1) ==>
              && Lifted(args, found).0 == Lifted(args[1..], found).0
              && rest + Lifted(args, found).1 == rest + [args[0]] + Lifted(args[1..], found).1
    ensures IsFlag(args[0]) && TakesValue(args[0]) && |args| > 1 ==>
              && Lifted(args, found).0 == Lifted(args[2..], found).0
              && rest + Lifted(args, found).1 == rest + [args[0]] + [args[1]] + Lifted(args[2..], found).1
    ensures !IsFlag(args[0]) && found == "" ==> Lifted(args, found) == Lifted(args[1..], args[0])
    ensures !IsFlag(args[0]) && found != "" ==>
              && Lifted(args, found).0 == Lifted(args[1..], found).0
              && rest + Lifted(args, found).1 == rest + [args[0]] + Lifted(args[1..], found).1
  {
    assert args[..1] == [args[0]];
    if |args| > 1 { assert args[..2] == [args[0]] + [args[1]]; }
  }

  function Lifted(args: seq<string>, found: string): (string, seq<string>)
    decreases |args|
  {
    if |args| == 0 then (found, [])
    else if IsFlag(args[0]) then
      var n := if TakesValue(args[0]) && |args| > 1 then 2 else 1;
      var more := Lifted(args[n..], found);
      (more.0, args[..n] + more.1)
    else if found == "" then Lifted(args[1..], args[0])
    else (Lifted(args[1..], found).0, [args[0]] + Lifted(args[1..], found).1)
  }

  /** Flags as the tool takes them, each with its value when it takes one. */
  predicate OnlyFlags(args: seq<string>) {
    |args| == 0
    || (IsFlag(args[0]) && if TakesValue(args[0]) then |args| > 1 && OnlyFlags(args[2..]) else OnlyFlags(args[1..]))
  }

  lemma {:induction false} FlagsPass(flags: seq<string>, more: seq<string>, found: string)
    requires OnlyFlags(flags)
    ensures Lifted(flags + more, found) == (Lifted(more, found).0, flags + Lifted(more, found).1)
    decreases |flags|
  {
    if |flags| == 0 {
      assert flags + more == more && flags + Lifted(more, found).1 == Lifted(more, found).1;
    } else {
      var n := if TakesValue(flags[0]) then 2 else 1;
      assert (flags + more)[n..] == flags[n..] + more && (flags + more)[..n] == flags[..n];
      FlagsPass(flags[n..], more, found);
      assert flags == flags[..n] + flags[n..];
      assert flags[..n] + (flags[n..] + Lifted(more, found).1) == flags + Lifted(more, found).1;
    }
  }

  // Once there is a directory, everything else is passed on as it is.
  lemma {:induction false} RestPasses(args: seq<string>, found: string)
    requires found != ""
    ensures Lifted(args, found) == (found, args)
    decreases |args|
  {
    if |args| > 0 {
      var n := if IsFlag(args[0]) && TakesValue(args[0]) && |args| > 1 then 2 else 1;
      RestPasses(args[n..], found);
      assert args == args[..n] + args[n..] && args[..1] == [args[0]];
    }
  }

  /**
   Flags may come before the directory, after it, or both: they all reach the flag parser, and so does
   anything else that comes after it.
   */
  lemma FlagsInEitherOrder(before: seq<string>, dir: string, after: seq<string>)
    requires OnlyFlags(before) && dir != "" && !IsFlag(dir)
    ensures Lifted(before + ([dir] + after), "") == (dir, before + after)
  {
    FlagsPass(before, [dir] + after, "");
    assert ([dir] + after)[1..] == after;
    RestPasses(after, dir);
  }

  /**
   And that is all there is to it: arguments without an empty one either hold a directory, with nothing
   but flags and their values before it, or are passed on as they are.
   */
  lemma {:induction false} LiftedIsTheFirstBare(args: seq<string>) returns (k: nat)
    requires "" !in args
    ensures k <= |args|
    ensures k < |args| ==>
              OnlyFlags(args[..k]) && !IsFlag(args[k]) && Lifted(args, "") == (args[k], args[..k] + args[k + 1..])
    ensures k == |args| ==> Lifted(args, "") == ("", args)
    decreases |args|
  {
    if |args| == 0 {
      k := 0;
    } else if IsFlag(args[0]) {
      var n := if TakesValue(args[0]) && |args| > 1 then 2 else 1;
      k := LiftedIsTheFirstBare(args[n..]);
      LiftsAfter(args, n, k);
      k := k + n;
    } else {
      k := 0;
      RestPasses(args[1..], args[0]);
      assert args[..0] == [] && args[..0] + args[1..] == args[1..];
    }
  }

  lemma LiftedFlag(args: seq<string>, n: nat)
    requires |args| > 0 && IsFlag(args[0]) && n == (if TakesValue(args[0]) && |args| > 1 then 2 else 1)
    ensures Lifted(args, "") == (Lifted(args[n..], "").0, args[..n] + Lifted(args[n..], "").1)
  {
  }

  lemma FlagsExtend(args: seq<string>, n: nat, k: nat)
    requires |args| > 0 && IsFlag(args[0]) && n == (if TakesValue(args[0]) && |args| > 1 then 2 else 1)
    requires k < |args| - n && OnlyFlags(args[n..][..k])
    ensures OnlyFlags(args[..n + k])
  {
    var flags := args[..n + k];
    assert flags[n..] == args[n..][..k] && flags[0] == args[0];
  }

  lemma LiftedJoins(args: seq<string>, n: nat, k: nat)
    requires n <= |args| && k < |args| - n
    ensures args[..n] + (args[n..][..k] + args[n..][k + 1..]) == args[..n + k] + args[n + k + 1..]
  {
  }

  lemma LiftsAfter(args: seq<string>, n: nat, k: nat)
    requires |args| > 0 && IsFlag(args[0]) && n == (if TakesValue(args[0]) && |args| > 1 then 2 else 1)
    requires k <= |args| - n
    requires k < |args| - n ==>
               && OnlyFlags(args[n..][..k])
               && Lifted(args[n..], "") == (args[n + k], args[n..][..k] + args[n..][k + 1..])
    requires k == |args| - n ==> Lifted(args[n..], "") == ("", args[n..])
    ensures k < |args| - n ==>
              OnlyFlags(args[..n + k]) && Lifted(args, "") == (args[n + k], args[..n + k] + args[n + k + 1..])
    ensures k == |args| - n ==> Lifted(args, "") == ("", args)
  {
    LiftedFlag(args, n);
    if k < |args| - n {
      FlagsExtend(args, n, k);
      LiftedJoins(args, n, k);
    } else {
      assert args[..n] + args[n..] == args;
    }
  }
}
