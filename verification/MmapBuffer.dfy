/** `MmapBuffer` as the code writes it: fields over a byte array. Each call here
    runs alone and moves a ghost copy of the interleaved machine one label per
    atomic operation, so everything proved of every interleaving holds of it. */
module MmapBuffer {
  import opened Bytes
  import opened Framing
  import M = BufferMachine

  class MmapBuffer {
    const region: array<byte>
    var offset: nat
    var writers: nat
    var sealed: bool
    ghost var st: M.State

    ghost predicate InStep()
      reads this, region
    {
      && M.Reachable(st)
      && st.region == region[..] && st.offset == offset && st.writers == writers && st.sealed == sealed
    }

    /** No call is inside `Write`, and the buffer is either open or sealed and settled. */
    ghost predicate Valid()
      reads this, region
    {
      InStep() && st.calls == map[] && writers == 0 && (if sealed then st.gate.Quiet? else st.gate.Open?)
    }

    ghost function Frames(): seq<Payload>
      reads this
    {
      M.Payloads(st.log)
    }

    constructor (capacity: nat)
      ensures Valid() && fresh(region) && region.Length == capacity
      ensures Frames() == [] && offset == 0 && !sealed
    {
      region := new byte[capacity](_ => 0);
      offset, writers, sealed := 0, 0, false;
      st := M.Init(capacity);
      new;
      assert M.ReachedBy(st, capacity, []);
      assert region[..] == Zeros(capacity);
    }

    ghost method Step(l: M.Label)
      requires M.Reachable(st) && M.Enabled(st, l) && M.Orderly(st, l)
      modifies `st
      ensures M.Reachable(st) && st == M.Do(old(st), l)
    {
      M.ReachableStep(st, l);
      st := M.Do(st, l);
    }

    method Write(data: seq<byte>) returns (ok: bool)
      requires Valid()
      modifies this, region
      ensures Valid()
      ensures ok <==> Storable(data) && !old(sealed) && old(offset) + 4 + |data| <= region.Length
      ensures Frames() == if ok then old(Frames()) + [data] else old(Frames())
      ensures offset == old(offset) + if Storable(data) && !old(sealed) then 4 + |data| else 0
      ensures sealed == old(sealed)
    {
      hide M.Reachable, M.ReachedBy;
      if |data| == 0 || |data| >= U32_LIMIT {
        return false;
      }
      ghost var c := st.nextCall;
      writers := writers + 1;
      Step(M.Enter(data));
      Step(M.ReadSealed(c));
      if sealed {
        writers := writers - 1;
        Step(M.Leave(c));
        return false;
      }
      ok := Place(data, c);
      writers := writers - 1;
      Step(M.Leave(c));
    }

    /** The middle of `Write`: reserve, and copy unless the reservation overruns. */
    method Place(data: seq<byte>, ghost c: nat) returns (ok: bool)
      requires InStep() && Storable(data) && st.gate.Open? && st.calls == map[c := M.Admitted(data)]
      modifies this`offset, region, `st
      ensures InStep() && offset == old(offset) + 4 + |data|
      ensures ok <==> offset <= region.Length
      ensures st.calls == map[c := if ok then M.Filling(data, old(offset), 4 + |data|) else M.Refused(data)]
      ensures st == old(st).(region := st.region, offset := offset, calls := st.calls,
                             log := if ok then old(st.log) + [M.Entry(c, data)] else old(st.log))
    {
      var need := 4 + |data|;
      var at := offset;
      offset := offset + need;
      Step(M.Reserve(c));
      if at + need > region.Length {
        return false;
      }
      Fill(at, data, c);
      return true;
    }

    /** `WriteU32LE(slot, len)` and then the memcpy of the payload, byte by byte. */
    method Fill(at: nat, data: seq<byte>, ghost c: nat)
      requires InStep() && Storable(data) && at + 4 + |data| <= region.Length
      requires c in st.calls && st.calls[c] == M.Filling(data, at, 0) && st.gate.Open?
      modifies region, `st
      ensures InStep() && st.calls == old(st.calls)[c := M.Filling(data, at, 4 + |data|)]
      ensures st == old(st).(region := st.region, calls := st.calls)
    {
      var header := EncodeU32(|data|);
      var i := 0;
      while i < 4 + |data|
        invariant i <= 4 + |data|
        invariant InStep()
        invariant st.calls == old(st.calls)[c := M.Filling(data, at, i)]
        invariant st == old(st).(region := st.region, calls := st.calls)
      {
        region[at + i] := if i < 4 then header[i] else data[i - 4];
        Step(M.StoreByte(c));
        i := i + 1;
      }
    }

    /** Raise the flag; then every writer has left, since the call runs alone. */
    method Seal()
      requires Valid()
      modifies this
      ensures Valid() && sealed
      ensures Frames() == old(Frames()) && offset == old(offset)
    {
      ghost var open := !sealed;
      sealed := true;
      if open {
        Step(M.StoreSealed);
        Step(M.SawNoWriters);
      }
    }

    /** All frames lie below it, exactly up to it unless the offset has overrun the region,
        and every byte from there on is zero. */
    method UsedBytes() returns (n: nat)
      requires Valid()
      ensures AllStorable(Frames()) && |Tiles(Frames())| <= n <= region.Length
      ensures n == if offset <= region.Length then |Tiles(Frames())| else region.Length
      ensures forall j | n <= j < region.Length :: region[j] == 0
    {
      n := if offset <= region.Length then offset else region.Length;
      M.SettledHolds(st);
      assert region[..] == Tiles(Frames()) + Zeros(region.Length - |Tiles(Frames())|);
    }

    /** The drain: the frames handed to the callback are exactly the accepted ones. */
    method ForEachFrame() returns (frames: seq<Payload>)
      requires Valid() && sealed
      ensures frames == Frames()
    {
      var end := UsedBytes();
      M.SettledHolds(st);
      frames := WalkTo(end);
      M.SealedSnapshot(st);
    }

    /** The loop over the bytes. */
    method WalkTo(end: nat) returns (frames: seq<Payload>)
      requires end <= region.Length
      ensures frames == Walk(region[..], end, 0)
    {
      hide DecodeU32, Walk;
      var pos := 0;
      frames := [];
      ghost var bytes := region[..];
      while pos + 4 <= end
        invariant pos <= end <= region.Length
        invariant frames + Walk(bytes, end, pos) == Walk(bytes, end, 0)
        decreases end - pos
      {
        var len := DecodeU32(region[pos..pos + 4]);
        assert bytes[pos..pos + 4] == region[pos..pos + 4];
        Round(frames, bytes, end, pos);
        if len == 0 || pos + 4 + len > end {
          return;
        }
        assert bytes[pos + 4..pos + 4 + len] == region[pos + 4..pos + 4 + len];
        frames := frames + [region[pos + 4..pos + 4 + len]];
        pos := pos + 4 + len;
      }
      WalkOver(frames, bytes, end, pos);
    }

    lemma WalkOver(frames: seq<Payload>, bytes: seq<byte>, end: nat, pos: nat)
      requires end <= |bytes| && pos + 4 > end
      ensures frames + Walk(bytes, end, pos) == frames
    {}

    lemma Round(frames: seq<Payload>, bytes: seq<byte>, end: nat, pos: nat)
      requires pos + 4 <= end <= |bytes|
      ensures var len := DecodeU32(bytes[pos..pos + 4]);
        frames + Walk(bytes, end, pos) == if len == 0 || pos + 4 + len > end then frames
          else frames + [bytes[pos + 4..pos + 4 + len]] + Walk(bytes, end, pos + 4 + len)
    {
      hide Walk, DecodeU32;
      WalkRound(bytes, end, pos);
    }

    /** Back to an empty, open buffer that reads as zeros. */
    method ResetForReuse()
      requires Valid() && sealed
      modifies this, region
      ensures Valid() && !sealed && offset == 0 && Frames() == []
      ensures forall j :: 0 <= j < region.Length ==> region[j] == 0
    {
      var prev := UsedBytes();
      M.SettledHolds(st);
      offset := 0;
      Step(M.ClearOffset);
      sealed := false;
      Step(M.ClearSealed);
      Scrub(prev);
      Step(M.ScrubDone);
      M.EmptyReadsZero(st);
    }

    /** The memset over the bytes the last cycle touched. */
    method Scrub(prev: nat)
      requires InStep() && prev <= region.Length && st.log == [] && st.gate == M.Scrubbing(prev, 0)
      modifies region, `st
      ensures InStep() && st == old(st).(region := st.region, gate := M.Scrubbing(prev, prev))
    {
      var i := 0;
      while i < prev
        invariant i <= prev
        invariant InStep() && st == old(st).(region := st.region, gate := M.Scrubbing(prev, i))
      {
        region[i] := 0;
        Step(M.ScrubByte);
        i := i + 1;
      }
    }
  }
}
