/**
 `Writer` and `Store.Read` as the imperative code they are. Outcomes of system
 calls come in as a plan; other goroutines run whole critical sections while
 this one does not hold the lock.
 */
module LogWriter {
  import opened Text
  import opened LogStore

  datatype WriteResult = Wrote(count: nat) | Failed(count: nat)

  /** How the calls of one pass through the locked part of `append` turn out. */
  datatype Plan = Plan(
    writes: seq<WriteResult>,
    syncOk: bool, truncateOk: bool, tail: seq<Byte>,
    commitOk: bool, repairOk: bool)

  datatype Section = Chunk(stream: Stream, chunk: seq<Byte>, plan: Plan) | Shut(ok: bool)

  /** These results of `WriteAt` put `need` bytes in place before an error or an empty write. */
  predicate Covers(results: seq<WriteResult>, need: nat)
    decreases |results|
  {
    need == 0 ||
    (results != [] && results[0].Wrote? && results[0].count > 0 &&
     Covers(results[1..], need - Min(results[0].count, need)))
  }

  /** Every call of the pass succeeds, the write at once. */
  predicate Smooth(plan: Plan) {
    plan.syncOk && plan.commitOk && plan.writes != [] && plan.writes[0].Wrote? && plan.writes[0].count >= MAXIMUM_CHUNK
  }

  predicate AllSmooth(plans: seq<Plan>) { forall k :: 0 <= k < |plans| ==> Smooth(plans[k]) }

  class LogFile {
    /** Any property that all steps of the log keep, such as being reached; then the writer keeps it too. */
    ghost const good: Property

    var file: seq<Byte>
    var synced: nat
    var index: seq<Meta>
    var cursor: nat
    var writer: Option<nat>
    ghost var phase: Phase
    ghost var ledger: seq<Record>

    ghost function View(): Log
      reads this
    {
      Log(file, synced, index, cursor, writer, phase, ledger)
    }

    ghost predicate Valid()
      reads this
    {
      Kept(good) && good(View()) && phase == Idle
    }

    constructor (ghost good: Property)
      requires Kept(good)
      ensures Valid() && View() == EMPTY && this.good == good
    {
      this.good := good;
      file, synced, index, cursor, writer, phase, ledger := [], 0, [], 0, None, Idle, [];
    }

    /** `OpenWriter`: fails only if truncation or its sync fails. */
    method OpenWriter(truncateOk: bool, tail: seq<Byte>, repairOk: bool) returns (ok: bool)
      requires Valid() && writer.None?
      modifies this
      ensures Valid() && View() == Step(old(View()), Open(truncateOk, tail, repairOk))
      ensures ok <==> writer.Some?
      ensures ok ==> file == Bytes(ledger)
      ensures truncateOk && repairOk ==> ok
    {
      assert Inv(View());
      KeptStep(good, View(), Open(truncateOk, tail, repairOk));
      assert file[..cursor] == Bytes(ledger);
      assert |file| == cursor ==> file[..cursor] == file;
      if |file| < cursor { return false; }
      if |file| > cursor {
        file := file[..cursor] + if truncateOk then [] else tail;
        synced := Min(synced, cursor);
        if !truncateOk { return false; }
        if !repairOk { return false; }
        synced := |file|;
      }
      writer := Some(cursor);
      ok := true;
    }

    /** Taking the lock for one chunk. */
    ghost method Start(stream: Stream, chunk: seq<Byte>)
      requires Valid() && writer.Some? && 0 < |chunk| <= MAXIMUM_CHUNK
      modifies this`phase
      ensures Kept(good) && good(View()) && phase == Phase.Writing(stream, chunk, 0)
    {
      KeptStep(good, View(), Event.Start(stream, chunk));
      phase := Phase.Writing(stream, chunk, 0);
    }

    /** One `WriteAt` that puts `count` more bytes of the chunk in place and then fails or not. */
    method WriteSome(chunk: seq<Byte>, done: nat, count: nat, failed: bool)
      requires Kept(good) && good(View())
      requires writer.Some? && phase.Writing? && phase.chunk == chunk && phase.done == done
      requires done + count <= |chunk|
      modifies this`file, this`synced, this`phase
      ensures Kept(good) && good(View())
      ensures phase == if failed then Idle else old(phase).(done := done + count)
    {
      ghost var before := View();
      KeptWrite(good, before, count, failed);
      var offset := writer.value + done;
      file := WriteAt(file, offset, chunk[done..done + count]);
      synced := Min(synced, offset);
      phase := if failed then Idle else phase.(done := done + count);
      assert View() == AfterWrite(before, count, failed);
    }

    /** `writeAtAll`: repeats short writes; an empty write or an error ends it. */
    method WriteAtAll(chunk: seq<Byte>, results: seq<WriteResult>) returns (ok: bool)
      requires Kept(good) && good(View()) && writer.Some? && phase.Writing? && phase.chunk == chunk && phase.done == 0
      modifies this`file, this`synced, this`phase
      ensures Kept(good) && good(View())
      ensures phase == if ok then old(phase).(done := |chunk|) else Idle
      ensures ok <==> Covers(results, |chunk|)
    {
      var done: nat, i := 0, 0;
      assert results[0..] == results;
      while done < |chunk|
        invariant Kept(good) && good(View()) && done <= |chunk| && phase == old(phase).(done := done)
        invariant i <= |results| && (Covers(results[i..], |chunk| - done) <==> Covers(results, |chunk|))
        decreases |chunk| - done
      {
        CoversNext(results, i, |chunk| - done);
        var result := if i < |results| then results[i] else Failed(0);
        var count := Min(result.count, |chunk| - done);
        var failed := result.Failed? || count == 0;
        WriteSome(chunk, done, count, failed);
        if failed { return false; }
        done, i := done + count, i + 1;
      }
      ok := true;
    }

    /** `file.Sync` after the write; on failure the tail is cut off if possible. */
    method SyncChunk(stream: Stream, chunk: seq<Byte>, plan: Plan) returns (ok: bool)
      requires Kept(good) && good(View()) && writer.Some? && phase == Phase.Writing(stream, chunk, |chunk|)
      modifies this`file, this`synced, this`phase
      ensures Kept(good) && good(View()) && View() == Step(old(View()), Sync(plan.syncOk, plan.truncateOk, plan.tail))
      ensures ok == plan.syncOk
      ensures phase == if ok then Phase.Synced(stream, chunk) else Idle
    {
      KeptBounds(good, View());
      KeptStep(good, View(), Sync(plan.syncOk, plan.truncateOk, plan.tail));
      if plan.syncOk {
        synced := |file|;
        phase := Phase.Synced(stream, chunk);
      } else {
        var expected := writer.value;
        file := file[..expected] + if plan.truncateOk then [] else plan.tail;
        synced := Min(synced, expected);
        phase := Idle;
      }
      ok := plan.syncOk;
    }

    /** `records.Commit`: all of the row, the cursor and the sequence, or nothing and a repair. */
    method CommitRow(stream: Stream, chunk: seq<Byte>, plan: Plan) returns (row: Option<Meta>)
      requires Kept(good) && good(View()) && writer.Some? && phase == Phase.Synced(stream, chunk)
      modifies this`file, this`synced, this`phase, this`index, this`cursor, this`ledger
      ensures Kept(good) && good(View())
      ensures View() == Step(old(View()), Commit(plan.commitOk, plan.truncateOk, plan.tail, plan.repairOk))
      ensures row.Some? == plan.commitOk
      ensures row.Some? ==> row.value.offset == writer.value && row.value.length == |chunk|
      ensures row.Some? ==>
                phase == Phase.Committed(stream, chunk) && ledger == old(ledger) + [Record(stream, chunk, false)]
      ensures row.None? ==> phase == Idle && ledger == old(ledger) && index == old(index)
    {
      KeptBounds(good, View());
      KeptStep(good, View(), Commit(plan.commitOk, plan.truncateOk, plan.tail, plan.repairOk));
      var expected := writer.value;
      if !plan.commitOk || cursor != expected {
        file := file[..expected] + if plan.truncateOk then [] else plan.tail;
        synced := Min(synced, expected);
        if plan.repairOk { synced := |file|; }
        phase := Idle;
        return None;
      }
      row := Some(Meta(|index| + 1, stream, expected, |chunk|));
      index := index + [row.value];
      cursor := expected + |chunk|;
      ledger := ledger + [Record(stream, chunk, false)];
      phase := Phase.Committed(stream, chunk);
    }

    /** The end of an iteration: the offset moves and the caller's count grows. */
    method Advance(stream: Stream, chunk: seq<Byte>, row: Meta)
      requires Kept(good) && good(View()) && writer.Some? && phase == Phase.Committed(stream, chunk)
      requires row.offset == writer.value && row.length == |chunk|
      requires |ledger| > 0
      modifies this`writer, this`phase, this`ledger
      ensures Valid() && writer == Some(row.offset + row.length)
      ensures ledger == old(ledger)[..|old(ledger)| - 1] + [Record(stream, chunk, true)]
    {
      ghost var before := View();
      KeptTell(good, before);
      writer := Some(row.offset + row.length);
      ledger := ledger[|ledger| - 1 := Record(stream, chunk, true)];
      phase := Idle;
      assert View() == AfterTell(before);
    }

    /** The locked part of one `append` iteration. */
    method AppendChunk(stream: Stream, chunk: seq<Byte>, plan: Plan) returns (ok: bool)
      requires Valid() && 0 < |chunk| <= MAXIMUM_CHUNK
      modifies this
      ensures Valid() && (writer.Some? <==> old(writer).Some?)
      ensures ok ==> ledger == old(ledger) + [Record(stream, chunk, true)]
      ensures !ok ==> ledger == old(ledger)
      ensures ok <==> old(writer).Some? && Covers(plan.writes, |chunk|) && plan.syncOk && plan.commitOk
    {
      if writer.None? { return false; }
      Start(stream, chunk);
      ok := WriteAtAll(chunk, plan.writes);
      if !ok { return false; }
      ok := SyncChunk(stream, chunk, plan);
      if !ok { return false; }
      var row := CommitRow(stream, chunk, plan);
      if row.None? { return false; }
      Advance(stream, chunk, row.value);
      assert (old(ledger) + [Record(stream, chunk, false)])[..|old(ledger)|] == old(ledger);
      ok := true;
    }

    /** `Writer.Close`; closing twice is harmless. */
    method CloseWriter(syncOk: bool)
      requires Valid()
      modifies this
      ensures Valid() && writer.None? && ledger == old(ledger)
      ensures View() == Step(old(View()), Close(syncOk))
    {
      if writer.None? { return; }
      KeptStep(good, View(), Close(syncOk));
      if syncOk { synced := |file|; }
      writer := None;
    }

    /** Other goroutines' critical sections: they only add records. */
    method Others(sections: seq<Section>)
      requires Valid()
      modifies this
      ensures Valid() && Keeps(old(ledger), ledger)
      ensures sections == [] ==> writer == old(writer) && ledger == old(ledger)
      ensures NewAreTheirs(ledger, |old(ledger)|, sections)
    {
      for i := 0 to |sections|
        invariant Valid() && Keeps(old(ledger), ledger)
        invariant i == 0 ==> writer == old(writer) && ledger == old(ledger)
        invariant NewAreTheirs(ledger, |old(ledger)|, sections)
      {
        match sections[i]
        case Chunk(stream, chunk, plan) =>
          if 0 < |chunk| <= MAXIMUM_CHUNK {
            assert Sends(sections[i], Record(stream, chunk, true));
            var _ := AppendChunk(stream, chunk, plan);
          }
        case Shut(ok) => CloseWriter(ok);
      }
    }

    /**
     `append`: chunks of at most 16 KiB, the lock released between them. `written`
     is what the caller is told; `at` is where its chunks ended up.
     */
    method Append(stream: Stream, contents: seq<Byte>, plans: seq<Plan>, others: seq<seq<Section>>)
      returns (written: nat, ok: bool, ghost at: seq<nat>)
      requires Valid()
      modifies this
      ensures Valid() && written <= |contents| && (ok <==> written == |contents|)
      ensures Appended(stream, old(ledger), ledger, at, contents[..written], others)
      ensures others == [] ==> |ledger| == |old(ledger)| + |at|
      ensures others == [] && old(writer).Some? && |plans| >= |contents| && AllSmooth(plans) ==> ok
    {
      written, at := 0, [];
      var i := 0;
      ghost var start := ledger;
      AppendedNone(stream, start, others);
      while written < |contents|
        invariant Valid() && i <= written <= |contents|
        invariant Appended(stream, start, ledger, at, contents[..written], others)
        invariant others == [] ==> |ledger| == |start| + |at| && (old(writer).Some? ==> writer.Some?)
        decreases |contents| - written
      {
        if i >= |plans| { return written, false, at; }
        var length := Min(|contents| - written, MAXIMUM_CHUNK);
        var chunk := contents[written..written + length];
        assert contents[..written] + chunk == contents[..written + length];
        var done;
        done, at := AppendNext(stream, chunk, plans[i], others, i, start, at, contents[..written]);
        if !done { return written, false, at; }
        written, i := written + length, i + 1;
      }
      ok := true;
    }

    /** One iteration: whoever gets the lock first, then this goroutine's chunk. */
    method AppendNext(
      stream: Stream, chunk: seq<Byte>, plan: Plan, others: seq<seq<Section>>, i: nat,
      ghost start: seq<Record>, ghost at: seq<nat>, ghost sofar: seq<Byte>)
      returns (ok: bool, ghost at': seq<nat>)
      requires Valid() && 0 < |chunk| <= MAXIMUM_CHUNK && Appended(stream, start, ledger, at, sofar, others)
      modifies this
      ensures Valid() && Appended(stream, start, ledger, at', if ok then sofar + chunk else sofar, others)
      ensures others == [] ==> |ledger| - |at'| == |old(ledger)| - |at| && (writer.Some? <==> old(writer).Some?)
      ensures others == [] && old(writer).Some? && Smooth(plan) ==> ok
    {
      var section := if i < |others| then others[i] else [];
      Others(section);
      ghost var before := ledger;
      AppendedByOthers(stream, start, old(ledger), before, at, sofar, others, section);
      ok := AppendChunk(stream, chunk, plan);
      at' := at;
      if ok {
        AppendedOwn(stream, start, before, at, sofar, chunk, others);
        at' := at + [|before|];
      }
    }

    /** `Store.Read`: the page after sequence `after`, each range read back from the file. */
    method Read(after: nat, limit: nat) returns (page: seq<Record>, hasMore: bool)
      requires Valid() && 0 < limit <= PAGE_LIMIT
      ensures hasMore <==> after + limit < |ledger|
      ensures |page| == if after >= |ledger| then 0 else Min(limit, |ledger| - after)
      ensures forall k :: 0 <= k < |page| ==>
                page[k].stream == ledger[after + k].stream && page[k].data == ledger[after + k].data
    {
      assert Inv(View());
      page := [];
      hasMore := after + limit < |index|;
      var last := if after >= |index| then after else after + Min(limit, |index| - after);
      for k := after to last
        invariant |page| == k - after
        invariant forall j :: 0 <= j < |page| ==>
                    page[j].stream == ledger[after + j].stream && page[j].data == ledger[after + j].data
      {
        assert RowMatches(View(), k);
        var row := index[k];
        page := page + [Record(row.stream, file[row.offset..row.offset + row.length], true)];
      }
    }
  }

  lemma CoversNext(results: seq<WriteResult>, i: nat, need: nat)
    requires i <= |results| && need > 0
    ensures Covers(results[i..], need) <==>
            i < |results| && results[i].Wrote? && results[i].count > 0 &&
            Covers(results[i + 1..], need - Min(results[i].count, need))
  {
    if i < |results| { assert results[i..][1..] == results[i + 1..]; }
  }

  ghost predicate Increasing(at: seq<nat>, n: nat) {
    (forall k :: 0 <= k < |at| ==> at[k] < n) && forall j, k :: 0 <= j < k < |at| ==> at[j] < at[k]
  }

  ghost function Pieces(ledger: seq<Record>, at: seq<nat>): seq<seq<Byte>>
    requires Increasing(at, |ledger|)
  {
    seq(|at|, k requires 0 <= k < |at| => ledger[at[k]].data)
  }

  /** The records at positions `at` are told, on `stream`, in order, and spell `data`. */
  ghost predicate Mine(stream: Stream, ledger: seq<Record>, at: seq<nat>, data: seq<Byte>) {
    Increasing(at, |ledger|) &&
    (forall k :: 0 <= k < |at| ==> ledger[at[k]].told && ledger[at[k]].stream == stream) &&
    Concat(Pieces(ledger, at)) == data
  }

  /** These records back `data`, and all are newer than the first `base`. */
  ghost predicate Backed(stream: Stream, ledger: seq<Record>, at: seq<nat>, data: seq<Byte>, base: nat) {
    Mine(stream, ledger, at, data) && forall k :: 0 <= k < |at| ==> at[k] >= base
  }

  /** The record is the chunk of this section. */
  predicate Sends(section: Section, r: Record) {
    section.Chunk? && section.stream == r.stream && section.chunk == r.data
  }

  predicate Theirs(r: Record, sections: seq<Section>) {
    exists j :: 0 <= j < |sections| && Sends(sections[j], r)
  }

  /** Every record since the first `base` is a chunk of one of these sections. */
  predicate NewAreTheirs(ledger: seq<Record>, base: nat, sections: seq<Section>) {
    forall k :: base <= k < |ledger| ==> Theirs(ledger[k], sections)
  }

  /** Every record since the first `base` is one of `at`, or a chunk of some other goroutine's section. */
  ghost predicate Accounted(ledger: seq<Record>, base: nat, at: seq<nat>, others: seq<seq<Section>>) {
    forall k :: base <= k < |ledger| ==> k in at || exists i :: 0 <= i < |others| && Theirs(ledger[k], others[i])
  }

  lemma TheirsKept(r: Record, s: Record, sections: seq<Section>)
    requires Theirs(r, sections) && s.stream == r.stream && s.data == r.data
    ensures Theirs(s, sections)
  {
    var j :| 0 <= j < |sections| && Sends(sections[j], r);
    assert Sends(sections[j], s);
  }

  /** Since `start` the log has grown by these records, which spell `data`, and by the chunks of others. */
  ghost predicate Appended(
    stream: Stream, start: seq<Record>, ledger: seq<Record>, at: seq<nat>, data: seq<Byte>, others: seq<seq<Section>>)
  {
    Keeps(start, ledger) && Backed(stream, ledger, at, data, |start|) && Accounted(ledger, |start|, at, others)
  }

  lemma AppendedNone(stream: Stream, start: seq<Record>, others: seq<seq<Section>>)
    ensures Appended(stream, start, start, [], [], others)
  {
    assert Pieces(start, []) == [];
  }

  lemma KeepsTrans(a: seq<Record>, b: seq<Record>, c: seq<Record>)
    requires Keeps(a, b) && Keeps(b, c)
    ensures Keeps(a, c)
  {}

  lemma AccountedByOthers(
    a: seq<Record>, b: seq<Record>, base: nat, at: seq<nat>, others: seq<seq<Section>>, section: seq<Section>)
    requires Accounted(a, base, at, others) && Keeps(a, b) && NewAreTheirs(b, |a|, section)
    requires section == [] || section in others
    ensures Accounted(b, base, at, others)
  {
    forall k | base <= k < |b| && k !in at
      ensures exists i :: 0 <= i < |others| && Theirs(b[k], others[i])
    {
      if k < |a| {
        var n :| 0 <= n < |others| && Theirs(a[k], others[n]);
        TheirsKept(a[k], b[k], others[n]);
      } else {
        assert Theirs(b[k], section);
        var n :| 0 <= n < |others| && others[n] == section;
      }
    }
  }

  lemma AppendedByOthers(
    stream: Stream, start: seq<Record>, a: seq<Record>, b: seq<Record>, at: seq<nat>, data: seq<Byte>,
    others: seq<seq<Section>>, section: seq<Section>)
    requires Appended(stream, start, a, at, data, others) && Keeps(a, b) && NewAreTheirs(b, |a|, section)
    requires section == [] || section in others
    ensures Appended(stream, start, b, at, data, others)
  {
    KeepsTrans(start, a, b);
    MineKept(stream, a, b, at, data);
    AccountedByOthers(a, b, |start|, at, others, section);
  }

  lemma AppendedOwn(
    stream: Stream, start: seq<Record>, a: seq<Record>, at: seq<nat>, data: seq<Byte>, chunk: seq<Byte>,
    others: seq<seq<Section>>)
    requires Appended(stream, start, a, at, data, others)
    ensures Appended(stream, start, a + [Record(stream, chunk, true)], at + [|a|], data + chunk, others)
  {
    var b := a + [Record(stream, chunk, true)];
    KeepsTrans(start, a, b);
    BackedGrows(stream, a, at, data, chunk, |start|);
    forall k | |start| <= k < |b|
      ensures k in at + [|a|] || exists i :: 0 <= i < |others| && Theirs(b[k], others[i])
    {
      assert k < |a| ==> b[k] == a[k];
    }
  }

  lemma MineKept(stream: Stream, a: seq<Record>, b: seq<Record>, at: seq<nat>, data: seq<Byte>)
    requires Mine(stream, a, at, data) && Keeps(a, b)
    ensures Mine(stream, b, at, data)
  {
    assert Pieces(a, at) == Pieces(b, at);
  }

  lemma MineGrows(stream: Stream, a: seq<Record>, at: seq<nat>, data: seq<Byte>, chunk: seq<Byte>)
    requires Mine(stream, a, at, data)
    ensures Mine(stream, a + [Record(stream, chunk, true)], at + [|a|], data + chunk)
  {
    var b := a + [Record(stream, chunk, true)];
    var more := at + [|a|];
    assert Increasing(more, |b|);
    MineKept(stream, a, b, at, data);
    forall k | 0 <= k < |more|
      ensures b[more[k]].told && b[more[k]].stream == stream
    {
      if k < |at| { assert more[k] == at[k]; }
    }
    var p := Pieces(b, more);
    assert p[|at|] == chunk;
    assert p[..|at|] == Pieces(b, at);
    assert Concat(p) == Concat(p[..|at|]) + chunk;
  }

  lemma BackedGrows(stream: Stream, a: seq<Record>, at: seq<nat>, data: seq<Byte>, chunk: seq<Byte>, base: nat)
    requires Backed(stream, a, at, data, base) && base <= |a|
    ensures Backed(stream, a + [Record(stream, chunk, true)], at + [|a|], data + chunk, base)
  {
    MineGrows(stream, a, at, data, chunk);
  }
}
