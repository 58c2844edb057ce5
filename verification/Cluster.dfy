/**
 The API server and the archive sink, as the operator's processes see them: single calls, each
 atomic, each of which may fail, with other processes running between any two of them.

 Every call that changes something is shown to be a step of the protocol, so `Valid` says that the
 current state is one the protocol can reach.
 */
module ApiServer {
  import opened Wrappers
  import opened Text
  import opened Records
  import opened Chain
  import opened Protocol
  import opened ProtocolSafety
  import opened Guarantees

  datatype ApiError = NotFound | AlreadyExists | Conflict | Unavailable

  class Cluster {
    const config: Config
    const digest: Digest

    var records: map<nat, Record>
    var revisions: seq<CheckpointSpec>
    var sink: map<Segment, string>

    // What has happened so far. No caller reads these; they are what the claims are about.
    var history: seq<Record>
    var published: seq<Segment>
    var overrun: bool
    ghost var trace: seq<Step>
    // How often somebody else took a step, a call failed or was not answered, or the sink kept other bytes.
    ghost var disturbed: nat

    function State(): World
      reads this`records, this`revisions, this`sink, this`history, this`published, this`overrun
    {
      World(records, revisions, sink, history, published, overrun)
    }

    ghost predicate Valid()
      reads this`records, this`revisions, this`sink, this`history, this`published, this`overrun, this`trace
    {
      Sound(config) && Implements(config.hash, digest) && State() == Execute(config, EMPTY, trace)
    }

    constructor (config: Config, digest: Digest)
      requires Sound(config) && Implements(config.hash, digest)
      ensures Valid() && State() == EMPTY && trace == []
      ensures this.config == config && this.digest == digest
    {
      this.config, this.digest := config, digest;
      records, revisions, sink := map[], [], map[];
      history, published, overrun, trace, disturbed := [], [], false, [], 0;
    }

    /** From then until now there was a disturbance, or nothing happened at all. */
    ghost predicate Undisturbed(count: nat, earlier: seq<Step>, w: World)
      reads this
    {
      count <= disturbed && (disturbed == count ==> trace == earlier && State() == w)
    }

    /** A call says it is unavailable only if it failed or was not answered, and fails for no other reason. */
    ghost predicate Answered<T>(r: Result<T, ApiError>, count: nat)
      reads this`disturbed
    {
      disturbed == if r == Err(Unavailable) then count + 1 else count
    }

    lemma Good()
      requires Valid()
      ensures Invariant(config, State())
    {
      RunsAreSafe(config, trace);
    }

    lemma StoredIsObserved(sequence: nat)
      requires Valid() && !overrun && sequence in records
      ensures Observed(history, Some(records[sequence])) && records[sequence].sequence == sequence
    {
      Good();
      assert Numbered(State()) && StoreOk(State());
    }

    lemma LastPosition()
      requires Valid() && !overrun && |history| > 0
      ensures history[|history| - 1].sequence == |history|
    {
      Good();
      HistoryAt(config, State(), |history| - 1);
    }

    lemma CheckpointBoundary()
      requires Valid() && !overrun
      ensures |revisions| > 0 ==>
                && revisions[|revisions| - 1].archivedLength == Boundary(State())
                && Boundary(State()) <= revisions[|revisions| - 1].length <= |history|
    {
      Good();
      PublishedAnchor(config, State());
    }

    lemma RegisterGood()
      requires Valid() && !overrun
      ensures RegisterOk(State())
    {
      Good();
    }

    /** What has been read since an earlier point stays true of it. */
    lemma Since(earlier: seq<Step>)
      requires Valid() && earlier <= trace
      ensures Evolves(Execute(config, EMPTY, earlier), State())
    {
      var more := trace[|earlier|..];
      assert trace == earlier + more;
      ExecuteSplit(config, EMPTY, earlier, more);
      RunsEvolve(config, Execute(config, EMPTY, earlier), more);
    }

    /** While only writers ran, nothing was deleted and the archive was left alone. */
    lemma SinceWriters(earlier: seq<Step>)
      requires Valid() && earlier <= trace && AllWriters(trace[|earlier|..])
      ensures WritersEvolve(Execute(config, EMPTY, earlier), State())
    {
      var more := trace[|earlier|..];
      assert trace == earlier + more;
      RunsAreSafe(config, earlier);
      ExecuteSplit(config, EMPTY, earlier, more);
      WritersLeaveTheArchiveAlone(config, Execute(config, EMPTY, earlier), more);
    }

    lemma WritersConcat(earlier: seq<Step>, middle: seq<Step>)
      requires earlier <= middle <= trace
      requires AllWriters(middle[|earlier|..]) && AllWriters(trace[|middle|..])
      ensures AllWriters(trace[|earlier|..])
    {
      forall i | 0 <= i < |trace[|earlier|..]| ensures WriterStep(trace[|earlier|..][i]) {
        if |earlier| + i < |middle| {
          assert middle[|earlier|..][i] == trace[|earlier|..][i];
        } else {
          assert trace[|middle|..][|earlier| + i - |middle|] == trace[|earlier|..][i];
        }
      }
    }

    // Recording a step that was enabled and has had its effect.
    lemma Stepped(before: World, earlier: seq<Step>, s: Step)
      requires Sound(config) && Implements(config.hash, digest)
      requires before == Execute(config, EMPTY, earlier) && trace == earlier + [s]
      requires Enabled(config, before, s) && State() == Effect(config, before, s)
      ensures Valid()
    {
      assert trace[..|trace| - 1] == earlier && trace[|trace| - 1] == s;
      assert Execute(config, EMPTY, trace) == ExecuteLast(config, EMPTY, trace);
    }

    // ---------- other processes ----------

    /** One step by somebody else, if it is one the protocol allows now. */
    method Perform(s: Step)
      requires Valid()
      modifies this
      ensures Valid() && (trace == old(trace) || trace == old(trace) + [s]) && disturbed == old(disturbed)
    {
      if Enabled(config, State(), s) {
        var w := Effect(config, State(), s);
        records, revisions, sink := w.records, w.revisions, w.sink;
        history, published, overrun := w.history, w.published, w.overrun;
        trace := trace + [s];
        Stepped(old(State()), old(trace), s);
      }
    }

    /**
     Any number of steps by anybody else. The one archiver sees only writers run beside it; for
     everybody else the archiver may be running too.
     */
    method OthersRun(besideArchiver: bool)
      requires Valid()
      modifies this
      ensures Valid() && old(trace) <= trace
      ensures besideArchiver ==> AllWriters(trace[|old(trace)|..])
      ensures Undisturbed(old(disturbed), old(trace), old(State()))
    {
      var steps: nat := *;
      while steps > 0
        invariant Valid() && old(trace) <= trace
        invariant besideArchiver ==> AllWriters(trace[|old(trace)|..])
        invariant Undisturbed(old(disturbed), old(trace), old(State()))
      {
        var s: Step := *;
        if !besideArchiver || WriterStep(s) {
          Perform(s);
          disturbed := disturbed + 1;
        }
        steps := steps - 1;
      }
    }

    // ---------- reads ----------

    method GetCheckpoint() returns (r: Result<(CheckpointSpec, nat), ApiError>)
      modifies this`disturbed
      ensures Answered(r, old(disturbed))
      ensures r.Ok? ==> |revisions| > 0 && r.value == (revisions[|revisions| - 1], |revisions|)
      ensures r.Err? ==> r.error == NotFound || r.error == Unavailable
      ensures r == Err(NotFound) ==> |revisions| == 0
    {
      var reachable: bool := *;
      if !reachable {
        disturbed := disturbed + 1;
        return Err(Unavailable);
      }
      if |revisions| == 0 { return Err(NotFound); }
      return Ok((revisions[|revisions| - 1], |revisions|));
    }

    method GetRecord(sequence: nat) returns (r: Result<Record, ApiError>)
      modifies this`disturbed
      ensures Answered(r, old(disturbed))
      ensures r.Ok? ==> sequence in records && r.value == records[sequence]
      ensures r.Err? ==> r.error == NotFound || r.error == Unavailable
      ensures r == Err(NotFound) ==> sequence !in records
    {
      var reachable: bool := *;
      if !reachable {
        disturbed := disturbed + 1;
        return Err(Unavailable);
      }
      if sequence !in records { return Err(NotFound); }
      return Ok(records[sequence]);
    }

    /** Every stored record once, in no particular order. */
    method ListRecords() returns (r: Result<seq<Record>, ApiError>)
      modifies this`disturbed
      ensures Answered(r, old(disturbed))
      ensures r.Ok? ==> Lists(r.value, records)
      ensures r.Err? ==> r.error == Unavailable
    {
      var reachable: bool := *;
      if !reachable {
        disturbed := disturbed + 1;
        return Err(Unavailable);
      }
      var items: seq<Record> := [];
      var rest := records.Keys;
      ghost var keys: seq<nat> := [];
      while rest != {}
        invariant rest <= records.Keys && |keys| == |items| && Distinct(keys)
        invariant forall i :: 0 <= i < |keys| ==> keys[i] in records && items[i] == records[keys[i]]
        invariant forall k :: k in keys <==> k in records.Keys - rest
        decreases rest
      {
        var k :| k in rest;
        assert k !in keys;
        items, keys := items + [records[k]], keys + [k];
        rest := rest - {k};
      }
      assert ListedBy(items, keys, records);
      return Ok(items);
    }

    // ---------- writes ----------

    /** Create-if-absent of a record. A call that fails for no stated reason may have landed. */
    method CreateRecord(sealed: Record, ghost event: Record, ghost prev: Option<Record>)
      returns (r: Result<(), ApiError>)
      requires Valid() && (overrun || Observed(history, prev))
      requires sealed == Seal(config.hash, event, prev)
      modifies this
      ensures Valid() && old(trace) <= trace && Answered(r, old(disturbed))
      ensures r.Ok? ==>
                && sealed.sequence !in old(records) && trace == old(trace) + [Create(event, prev)]
                && State() == WithRecord(old(State()), sealed)
      ensures r == Err(AlreadyExists) ==> sealed.sequence in records && trace == old(trace) && State() == old(State())
      ensures r.Err? ==> r.error == AlreadyExists || r.error == Unavailable
    {
      var reachable: bool := *;
      if !reachable {
        disturbed := disturbed + 1;
        return Err(Unavailable);
      }
      if sealed.sequence in records { return Err(AlreadyExists); }
      overrun := overrun || sealed.sequence <= Boundary(State());
      records := records[sealed.sequence := sealed];
      history := history + [sealed];
      trace := trace + [Create(event, prev)];
      Stepped(old(State()), old(trace), Create(event, prev));
      var answered: bool := *;
      if !answered { disturbed := disturbed + 1; }
      return if answered then Ok(()) else Err(Unavailable);
    }

    /** The specification a step of the protocol writes over the revision it was based on. */
    ghost function Written(s: Step): Option<CheckpointSpec>
      reads this`records, this`revisions, this`sink, this`history, this`published, this`overrun
      requires s.PublishHead? || s.PublishBoundary?
    {
      match s
      case PublishHead(version, cp) => Merge(RevisionAt(State(), version), cp)
      case PublishBoundary(version, a) =>
        if RevisionAt(State(), version).None? then None
        else MoveBoundary(RevisionAt(State(), version).value, a)
    }

    /**
     A write of the checkpoint object based on revision `version`: an update, or a creation when
     nothing was found. It conflicts if the object has been written since.
     */
    method PutCheckpointObject(version: nat, spec: CheckpointSpec, s: Step) returns (r: Result<(), ApiError>)
      requires Valid() && (s.PublishHead? || s.PublishBoundary?) && s.version == version
      requires Enabled(config, State(), s) && Written(s) == Some(spec)
      modifies this
      ensures Valid() && old(trace) <= trace && Answered(r, old(disturbed))
      ensures records == old(records) && history == old(history) && sink == old(sink) && overrun == old(overrun)
      ensures r.Ok? ==> version == |old(revisions)| && revisions == old(revisions) + [spec]
      ensures s.PublishHead? ==> published == old(published)
      ensures r.Ok? && s.PublishBoundary? ==>
                published == old(published) + [Segment(old(Boundary(State())) + 1, s.anchor.length)]
      ensures r == Err(Conflict) || r == Err(AlreadyExists) ==>
                trace == old(trace) && State() == old(State()) && version != |revisions|
      ensures r.Err? ==> trace == old(trace) || trace == old(trace) + [s]
      ensures r.Err? ==> r.error != NotFound
    {
      var reachable: bool := *;
      if !reachable {
        disturbed := disturbed + 1;
        return Err(Unavailable);
      }
      if version != |revisions| { return Err(if version == 0 then AlreadyExists else Conflict); }
      StoreRevision(spec, s);
      var answered: bool := *;
      if !answered { disturbed := disturbed + 1; }
      return if answered then Ok(()) else Err(Unavailable);
    }

    // The write itself, over the revision that is current.
    method StoreRevision(spec: CheckpointSpec, s: Step)
      requires Valid() && (s.PublishHead? || s.PublishBoundary?) && s.version == |revisions|
      requires Enabled(config, State(), s) && Written(s) == Some(spec)
      modifies this
      ensures Valid() && trace == old(trace) + [s] && disturbed == old(disturbed)
      ensures records == old(records) && history == old(history) && sink == old(sink) && overrun == old(overrun)
      ensures revisions == old(revisions) + [spec]
      ensures published == if s.PublishHead? then old(published)
                           else old(published) + [Segment(old(Boundary(State())) + 1, s.anchor.length)]
    {
      if s.PublishBoundary? {
        published := published + [Segment(Boundary(State()) + 1, s.anchor.length)];
      }
      revisions := revisions + [spec];
      trace := trace + [s];
      Stepped(old(State()), old(trace), s);
    }

    method Delete(sequence: nat) returns (r: Result<(), ApiError>)
      requires Valid() && (sequence in records ==> Enabled(config, State(), DeleteRecord(sequence)))
      modifies this
      ensures Valid() && old(trace) <= trace && Answered(r, old(disturbed))
      ensures revisions == old(revisions) && sink == old(sink) && history == old(history)
      ensures published == old(published) && overrun == old(overrun)
      ensures r.Ok? ==> sequence in old(records) && records == old(records) - {sequence}
      ensures r == Err(NotFound) ==> sequence !in records && records == old(records)
      ensures records == old(records) || records == old(records) - {sequence}
      ensures r.Err? ==> r.error == NotFound || r.error == Unavailable
    {
      var reachable: bool := *;
      if !reachable {
        disturbed := disturbed + 1;
        return Err(Unavailable);
      }
      if sequence !in records { return Err(NotFound); }
      records := records - {sequence};
      trace := trace + [DeleteRecord(sequence)];
      Stepped(old(State()), old(trace), DeleteRecord(sequence));
      var answered: bool := *;
      if !answered { disturbed := disturbed + 1; }
      return if answered then Ok(()) else Err(Unavailable);
    }

    // ---------- the sink ----------

    /** A sink may fail, keep the bytes, or keep something else and say nothing. */
    method SinkPut(s: Segment, data: string) returns (r: Result<string, ApiError>)
      requires Valid() && (overrun || s.first == Boundary(State()) + 1)
      modifies this
      ensures Valid() && old(trace) <= trace && old(disturbed) <= disturbed
      ensures r.Err? ==> disturbed > old(disturbed)
      ensures disturbed == old(disturbed) ==> s in sink && sink[s] == data
      ensures records == old(records) && revisions == old(revisions) && history == old(history)
      ensures published == old(published) && overrun == old(overrun)
      ensures forall t :: t != s ==> (t in sink <==> t in old(sink)) && (t in sink ==> sink[t] == old(sink)[t])
    {
      var reachable: bool := *;
      if !reachable {
        disturbed := disturbed + 1;
        return Err(Unavailable);
      }
      var kept: string := *;
      if kept != data { disturbed := disturbed + 1; }
      sink := sink[s := kept];
      trace := trace + [StoreSegment(s.first, s.last, kept)];
      Stepped(old(State()), old(trace), StoreSegment(s.first, s.last, kept));
      var answered: bool := *;
      var location: string := *;
      if !answered { disturbed := disturbed + 1; }
      return if answered then Ok(location) else Err(Unavailable);
    }

    method SinkGet(s: Segment) returns (r: Result<string, ApiError>)
      modifies this`disturbed
      ensures Answered(r, old(disturbed))
      ensures r.Ok? ==> s in sink && r.value == sink[s]
      ensures r == Err(NotFound) ==> s !in sink
      ensures r.Err? ==> r.error == NotFound || r.error == Unavailable
    {
      var reachable: bool := *;
      if !reachable {
        disturbed := disturbed + 1;
        return Err(Unavailable);
      }
      if s !in sink { return Err(NotFound); }
      return Ok(sink[s]);
    }

    method SinkRemove(s: Segment) returns (r: Result<(), ApiError>)
      requires Valid() && (overrun || s.first == Boundary(State()) + 1)
      modifies this
      ensures Valid() && old(trace) <= trace && Answered(r, old(disturbed))
      ensures r.Err? ==> r.error == Unavailable
      ensures records == old(records) && revisions == old(revisions) && history == old(history)
      ensures published == old(published) && overrun == old(overrun)
      ensures r.Ok? ==> sink == old(sink) - {s}
      ensures sink == old(sink) || sink == old(sink) - {s}
    {
      var reachable: bool := *;
      if !reachable {
        disturbed := disturbed + 1;
        return Err(Unavailable);
      }
      sink := sink - {s};
      trace := trace + [DiscardSegment(s.first, s.last)];
      Stepped(old(State()), old(trace), DiscardSegment(s.first, s.last));
      var answered: bool := *;
      if !answered { disturbed := disturbed + 1; }
      return if answered then Ok(()) else Err(Unavailable);
    }
  }

  /** This record is stored and at the end of the history; it may be one the boundary had passed. */
  function WithRecord(w: World, r: Record): World {
    w.(records := w.records[r.sequence := r], history := w.history + [r],
    overrun := w.overrun || r.sequence <= Boundary(w))
  }

  /** The items are the stored records, each once, in the order of `keys`. */
  ghost predicate ListedBy(items: seq<Record>, keys: seq<nat>, records: map<nat, Record>) {
    && |keys| == |items| && Distinct(keys)
    && (forall i :: 0 <= i < |keys| ==> keys[i] in records && items[i] == records[keys[i]])
    && (forall k :: k in records ==> k in keys)
  }

  ghost predicate Lists(items: seq<Record>, records: map<nat, Record>) {
    exists keys :: ListedBy(items, keys, records)
  }
}
