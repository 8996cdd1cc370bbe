/** Several audio streams mixed into one output: per-stream bounded block
    queues with an enable flag and a volume, the additive mixer with
    averaging and clipping, the many-to-many router and the manager that
    delivers a block along the routes. Locks are left out (the model is
    sequential); blocks are frames × channels of exact reals. */
module Multistream {
  import opened Common
  import opened Pcm

  type Block = Rows<real>

  /** `deque(maxlen=100)` of each stream. */
  const STREAM_BUFFER: nat := 100
  const MIN_VOLUME: real := 0.0
  const MAX_VOLUME: real := 2.0

  /** The observable state of one stream. */
  datatype StreamView = StreamView(buffer: seq<Block>, enabled: bool, volume: real)

  // ---------------------------------------------------------------------
  // AudioStream
  // ---------------------------------------------------------------------

  class AudioStream {
    const streamId: string
    const name: string
    var buffer: seq<Block>
    var enabled: bool
    var volume: real

    ghost predicate Valid()
      reads this
    {
      |buffer| <= STREAM_BUFFER && MIN_VOLUME <= volume <= MAX_VOLUME
    }

    function View(): StreamView
      reads this
    {
      StreamView(buffer, enabled, volume)
    }

    constructor (streamId: string, name: string)
      ensures Valid() && this.streamId == streamId && this.name == name
      ensures View() == StreamView([], true, 1.0)
    {
      this.streamId := streamId;
      this.name := name;
      buffer := [];
      enabled := true;
      volume := 1.0;
    }

    /** `add_audio`: queue the block only while enabled, evicting the
        oldest block from a full queue. */
    method AddAudio(block: Block)
      requires Valid()
      modifies this
      ensures Valid()
      ensures View() == Delivered(old(View()), block)
    {
      if enabled {
        buffer := Append(buffer, block, STREAM_BUFFER);
      }
    }

    /** `get_audio(frames)`: the oldest block, removed, or None when the
        queue is empty; `frames` plays no part. */
    method GetAudio(frames: int) returns (r: Option<Block>)
      requires Valid()
      modifies this
      ensures Valid()
      ensures old(buffer) == [] ==> r == None && buffer == []
      ensures old(buffer) != [] ==> r == Some(old(buffer)[0]) && buffer == old(buffer)[1..]
      ensures enabled == old(enabled) && volume == old(volume)
    {
      if |buffer| > 0 {
        r := Some(buffer[0]);
        buffer := buffer[1..];
      } else {
        r := None;
      }
    }

    method Clear()
      requires Valid()
      modifies this
      ensures Valid() && View() == old(View()).(buffer := [])
    {
      buffer := [];
    }
  }

  /** The stream's state after `add_audio(block)`. */
  function Delivered(v: StreamView, block: Block): (r: StreamView)
    requires |v.buffer| <= STREAM_BUFFER
    ensures r.enabled == v.enabled && r.volume == v.volume
    ensures !v.enabled ==> r == v
    ensures v.enabled ==> r.buffer == Append(v.buffer, block, STREAM_BUFFER) && r.buffer[|r.buffer| - 1] == block
  {
    if v.enabled then v.(buffer := Append(v.buffer, block, STREAM_BUFFER)) else v
  }

  // ---------------------------------------------------------------------
  // The additive mix, as a function of the blocks taken
  // ---------------------------------------------------------------------

  /** A stream contributes when it is enabled and has a block queued. */
  predicate Contributes(v: StreamView)
  {
    v.enabled && v.buffer != []
  }

  /** The stream's state after `mix`: its head block taken if it contributed. */
  function AfterMix(v: StreamView): StreamView
  {
    if Contributes(v) then v.(buffer := v.buffer[1..]) else v
  }

  /** The volume-scaled blocks taken by `mix`, in dictionary order. */
  function ActiveBlocks(order: seq<string>, views: map<string, StreamView>): (blocks: seq<Block>)
    requires forall i :: 0 <= i < |order| ==> order[i] in views
    ensures |blocks| <= |order|
    decreases |order|
  {
    if order == [] then []
    else
      var prev := ActiveBlocks(order[..|order| - 1], views);
      var v := views[order[|order| - 1]];
      if Contributes(v) then prev + [ScaleAll(v.buffer[0], v.volume)] else prev
  }

  /** One more stream considered by `mix`. */
  lemma ActiveBlocksSnoc(order: seq<string>, i: nat, views: map<string, StreamView>)
    requires i < |order| && forall k :: 0 <= k < |order| ==> order[k] in views
    ensures var v := views[order[i]];
            ActiveBlocks(order[..i + 1], views) ==
              ActiveBlocks(order[..i], views) + if Contributes(v) then [ScaleAll(v.buffer[0], v.volume)] else []
  {
    assert order[..i + 1][..i] == order[..i];
  }

  /** A block numpy can add into a frames × `channels` output: one of
      exactly `channels` columns, or a single column broadcast onto every
      channel. */
  predicate Fits(b: Block, channels: nat)
  {
    HasWidth(b, channels) || HasWidth(b, 1)
  }

  /** The stream's turn in `mix` does not raise: it is skipped, or its
      head block fits the output. */
  predicate HeadFits(v: StreamView, channels: nat)
  {
    Contributes(v) ==> Fits(v.buffer[0], channels)
  }

  predicate BlocksFit(blocks: seq<Block>, channels: nat)
  {
    forall k :: 0 <= k < |blocks| ==> Fits(blocks[k], channels)
  }

  /** The position in `order` of the first stream whose head block `mix`
      cannot add into the output (the ValueError), or `|order|` when every
      stream's turn goes through. */
  function FirstMisfit(order: seq<string>, views: map<string, StreamView>, channels: nat): (k: nat)
    requires forall i :: 0 <= i < |order| ==> order[i] in views
    ensures k <= |order|
    ensures forall j :: 0 <= j < k ==> HeadFits(views[order[j]], channels)
    ensures k < |order| ==> !HeadFits(views[order[k]], channels)
    decreases |order|
  {
    if order == [] then 0
    else if !HeadFits(views[order[0]], channels) then 0
    else 1 + FirstMisfit(order[1..], views, channels)
  }

  /** Every stream before position `i` of `order` takes its turn in `mix`
      without raising. */
  predicate FitsBefore(order: seq<string>, views: map<string, StreamView>, channels: nat, i: nat)
    requires forall j :: 0 <= j < |order| ==> order[j] in views
  {
    forall j :: 0 <= j < i && j < |order| ==> HeadFits(views[order[j]], channels)
  }

  /** `FirstMisfit` is the one position with every turn before it going
      through and the turn there, if any, raising. */
  lemma FirstMisfitAt(order: seq<string>, views: map<string, StreamView>, channels: nat, i: nat)
    requires forall j :: 0 <= j < |order| ==> order[j] in views
    requires i <= |order| && FitsBefore(order, views, channels, i)
    requires i < |order| ==> !HeadFits(views[order[i]], channels)
    ensures FirstMisfit(order, views, channels) == i
  {
  }

  /** Sample (f, c) of a block added into the output: only the block's own
      leading frames contribute, extra frames are ignored, and a
      one-column block gives its single sample to every channel. */
  function SampleAt(b: Block, f: nat, c: nat, channels: nat): real
    requires Fits(b, channels) && c < channels
  {
    if f < |b| then b[f][if |b[f]| == 1 then 0 else c] else 0.0
  }

  /** The reference sum: each block's sample at (f, c), added up. */
  function MixSum(blocks: seq<Block>, f: nat, c: nat, channels: nat): real
    requires BlocksFit(blocks, channels) && c < channels
  {
    if blocks == [] then 0.0
    else SampleAt(blocks[0], f, c, channels) + MixSum(blocks[1..], f, c, channels)
  }

  function ZeroGrid(frames: nat, channels: nat): (g: Rows<real>)
    ensures |g| == frames && HasWidth(g, channels)
    ensures forall f, c :: 0 <= f < frames && 0 <= c < channels ==> g[f][c] == 0.0
    decreases frames
  {
    if frames == 0 then [] else ZeroGrid(frames - 1, channels) + [seq(channels, c => 0.0)]
  }

  /** `output += block[:frames]` or `output[:len(block)] += block`. */
  function AddInto(acc: Rows<real>, b: Block, frames: nat, channels: nat): (r: Rows<real>)
    requires |acc| == frames && HasWidth(acc, channels) && Fits(b, channels)
    ensures |r| == frames && HasWidth(r, channels)
    ensures forall f, c {:trigger r[f][c]} :: 0 <= f < frames && 0 <= c < channels ==>
              r[f][c] == acc[f][c] + SampleAt(b, f, c, channels)
    decreases frames
  {
    if frames == 0 then []
    else AddInto(acc[..frames - 1], b, frames - 1, channels) + [AddRow(acc[frames - 1], b, frames - 1, channels)]
  }

  /** Frame `f` of a block added into one output row. */
  function AddRow(row: seq<real>, b: Block, f: nat, channels: nat): (r: seq<real>)
    requires |row| == channels && Fits(b, channels)
    ensures |r| == channels
  {
    seq(channels, c requires 0 <= c < channels => row[c] + SampleAt(b, f, c, channels))
  }

  /** The float output buffer after adding every block in turn. */
  function Accumulate(blocks: seq<Block>, frames: nat, channels: nat): (acc: Rows<real>)
    requires BlocksFit(blocks, channels)
    ensures |acc| == frames && HasWidth(acc, channels)
    decreases |blocks|
  {
    if blocks == [] then ZeroGrid(frames, channels)
    else
      var prev := blocks[..|blocks| - 1];
      AddInto(Accumulate(prev, frames, channels), blocks[|blocks| - 1], frames, channels)
  }

  /** One more block added into the output. */
  lemma AccumulateSnoc(blocks: seq<Block>, b: Block, frames: nat, channels: nat)
    requires BlocksFit(blocks, channels) && Fits(b, channels)
    ensures BlocksFit(blocks + [b], channels)
    ensures Accumulate(blocks + [b], frames, channels) == AddInto(Accumulate(blocks, frames, channels), b, frames, channels)
  {
    assert (blocks + [b])[..|blocks|] == blocks;
  }

  lemma {:induction false} MixSumSnoc(blocks: seq<Block>, b: Block, f: nat, c: nat, channels: nat)
    requires BlocksFit(blocks, channels) && Fits(b, channels) && c < channels
    ensures BlocksFit(blocks + [b], channels)
    ensures MixSum(blocks + [b], f, c, channels) == MixSum(blocks, f, c, channels) + SampleAt(b, f, c, channels)
    decreases |blocks|
  {
    var all := blocks + [b];
    assert BlocksFit(all, channels);
    if blocks != [] {
      assert all[1..] == blocks[1..] + [b];
      MixSumSnoc(blocks[1..], b, f, c, channels);
    }
  }

  /** The accumulated output is the plain sum of the blocks' samples. */
  lemma {:induction false} AccumulateIsSum(blocks: seq<Block>, frames: nat, channels: nat, f: nat, c: nat)
    requires BlocksFit(blocks, channels) && f < frames && c < channels
    ensures Accumulate(blocks, frames, channels)[f][c] == MixSum(blocks, f, c, channels)
    decreases |blocks|
  {
    if blocks != [] {
      var prev := blocks[..|blocks| - 1];
      var b := blocks[|blocks| - 1];
      assert prev + [b] == blocks;
      AccumulateIsSum(prev, frames, channels, f, c);
      MixSumSnoc(prev, b, f, c, channels);
    }
  }

  /** The mixer output: the sum, divided by the number of blocks when
      there is more than one, clipped to the int16 range and truncated
      by `astype(np.int16)`. */
  function Render(blocks: seq<Block>, frames: nat, channels: nat): (out: Rows<int>)
    requires BlocksFit(blocks, channels)
    ensures |out| == frames && HasWidth(out, channels) && RowsInt16(out)
  {
    Finish(Accumulate(blocks, frames, channels), |blocks|, frames, channels)
  }

  /** `output / active_streams` when more than one stream was mixed, then
      `np.clip(output, -32768, 32767).astype(np.int16)`. */
  function Finish(acc: Rows<real>, n: nat, frames: nat, channels: nat): (out: Rows<int>)
    requires |acc| == frames && HasWidth(acc, channels)
    ensures |out| == frames && HasWidth(out, channels) && RowsInt16(out)
  {
    seq(frames, f requires 0 <= f < frames =>
      seq(channels, c requires 0 <= c < channels =>
        var x := if n > 1 then acc[f][c] / n as real else acc[f][c];
        Trunc(ClampReal(x, -32768.0, 32767.0))))
  }

  /** The meaning of Render sample by sample, against the reference sum. */
  lemma RenderSample(blocks: seq<Block>, frames: nat, channels: nat, f: nat, c: nat)
    requires BlocksFit(blocks, channels) && f < frames && c < channels
    ensures var s := MixSum(blocks, f, c, channels);
            Render(blocks, frames, channels)[f][c] ==
              Trunc(ClampReal(if |blocks| > 1 then s / |blocks| as real else s, -32768.0, 32767.0))
  {
    AccumulateIsSum(blocks, frames, channels, f, c);
  }

  /** With no active stream the mix is silence. */
  lemma RenderSilence(frames: nat, channels: nat)
    ensures forall f, c :: 0 <= f < frames && 0 <= c < channels ==> Render([], frames, channels)[f][c] == 0
  {
  }

  /** A single active stream is passed through unaveraged: its leading
      frames (scaled, clipped, truncated) and silence after them. */
  lemma RenderSingle(b: Block, frames: nat, channels: nat, f: nat, c: nat)
    requires HasWidth(b, channels) && f < frames && c < channels
    ensures BlocksFit([b], channels)
    ensures Render([b], frames, channels)[f][c] ==
              if f < |b| then Trunc(ClampReal(b[f][c], -32768.0, 32767.0)) else 0
  {
    assert BlocksFit([b], channels);
    RenderSample([b], frames, channels, f, c);
    assert [b][1..] == [];
  }

  /** A single one-column block is broadcast: every channel of a frame
      carries the block's one sample. */
  lemma RenderMono(b: Block, frames: nat, channels: nat, f: nat, c: nat)
    requires HasWidth(b, 1) && f < frames && c < channels
    ensures BlocksFit([b], channels)
    ensures Render([b], frames, channels)[f][c] ==
              if f < |b| then Trunc(ClampReal(b[f][0], -32768.0, 32767.0)) else 0
  {
    assert BlocksFit([b], channels);
    RenderSample([b], frames, channels, f, c);
    assert [b][1..] == [];
  }

  // ---------------------------------------------------------------------
  // AudioMixer
  // ---------------------------------------------------------------------

  class AudioMixer {
    const channels: nat
    var streams: map<string, AudioStream>
    /** The dictionary's insertion order, which `mix` iterates in. */
    var order: seq<string>

    ghost predicate Valid()
      reads this, streams.Values
    {
      Indexed() && forall id :: id in streams ==> streams[id].Valid()
    }

    /** `order` lists each id once, and distinct ids hold distinct streams. */
    ghost predicate Indexed()
      reads this
    {
      (forall id :: id in streams <==> id in order) &&
      NoDuplicates(order) &&
      (forall id :: id in streams ==> streams[id].streamId == id)
    }

    /** The state of every stream, by id. */
    ghost function Views(): (views: map<string, StreamView>)
      reads this, streams.Values
      requires Valid()
      ensures views.Keys == streams.Keys
      ensures forall id :: id in views ==> |views[id].buffer| <= STREAM_BUFFER
    {
      map id | id in streams :: streams[id].View()
    }

    constructor (channels: nat)
      ensures Valid() && this.channels == channels && streams == map[] && order == []
    {
      this.channels := channels;
      streams := map[];
      order := [];
    }

    /** `add_stream`: a new stream for a new id; an existing id returns its
        stream and changes nothing. */
    method AddStream(streamId: string, name: string) returns (s: AudioStream)
      requires Valid()
      modifies this
      ensures Valid()
      ensures streamId in streams && s == streams[streamId]
      ensures streamId in old(streams) ==> streams == old(streams) && order == old(order)
      ensures streamId !in old(streams) ==>
                fresh(s) && s.View() == StreamView([], true, 1.0) &&
                streams == old(streams)[streamId := s] && order == old(order) + [streamId]
      ensures forall id :: id in old(streams) ==> streams[id].View() == old(streams[id].View())
    {
      if streamId !in streams {
        s := new AudioStream(streamId, name);
        streams := streams[streamId := s];
        NoDuplicatesSnoc(order, streamId);
        order := order + [streamId];
      }
      s := streams[streamId];
    }

    /** `remove_stream`: forget the id; unknown ids are ignored. */
    method RemoveStream(streamId: string)
      requires Valid()
      modifies this
      ensures Valid()
      ensures streams == old(streams) - {streamId}
      ensures order == Without(old(order), streamId)
    {
      if streamId in streams {
        streams := streams - {streamId};
        order := Without(order, streamId);
      }
      else {
        WithoutAbsent(order, streamId);
      }
    }

    /** `set_stream_volume`: clamp into [0, 2]; unknown ids are ignored. */
    method SetStreamVolume(streamId: string, volume: real)
      requires Valid()
      modifies streams.Values
      ensures Valid() && streams == old(streams) && order == old(order)
      ensures streamId !in streams ==> Views() == old(Views())
      ensures streamId in streams ==>
                Views() == old(Views())[streamId := old(Views())[streamId].(volume := ClampReal(volume, MIN_VOLUME, MAX_VOLUME))]
    {
      if streamId in streams {
        streams[streamId].volume := ClampReal(volume, MIN_VOLUME, MAX_VOLUME);
      }
    }

    /** `set_stream_enabled`; unknown ids are ignored. */
    method SetStreamEnabled(streamId: string, enabled: bool)
      requires Valid()
      modifies streams.Values
      ensures Valid() && streams == old(streams) && order == old(order)
      ensures streamId !in streams ==> Views() == old(Views())
      ensures streamId in streams ==>
                Views() == old(Views())[streamId := old(Views())[streamId].(enabled := enabled)]
    {
      if streamId in streams {
        streams[streamId].enabled := enabled;
      }
    }

    /** `get_streams`: the streams in dictionary order. */
    function GetStreams(): (r: seq<AudioStream>)
      reads this
      requires forall i :: 0 <= i < |order| ==> order[i] in streams
      ensures |r| == |order|
      ensures forall i :: 0 <= i < |order| ==> r[i] == streams[order[i]]
    {
      var ids, m := order, streams;
      seq(|ids|, i requires 0 <= i < |ids| && ids[i] in m => m[ids[i]])
    }

    /** `mix(frames)`: take one block from every enabled stream that has
        one, in dictionary order, and render them; disabled streams keep
        their queues. A head block that does not fit the output raises
        (None) once it has been taken, and the streams after it keep their
        queues. */
    method Mix(frames: nat) returns (out: Option<Rows<int>>)
      requires Valid()
      modifies streams.Values
      ensures Valid() && streams == old(streams) && order == old(order)
      ensures var k := FirstMisfit(order, old(Views()), channels);
              forall j :: 0 <= j < |order| ==>
                streams[order[j]].View() == if j <= k then AfterMix(old(Views())[order[j]]) else old(Views())[order[j]]
      ensures out.Some? <==> FirstMisfit(order, old(Views()), channels) == |order|
      ensures out.Some? ==> BlocksFit(ActiveBlocks(order, old(Views())), channels) &&
                            out.value == Render(ActiveBlocks(order, old(Views())), frames, channels)
    {
      ghost var views0 := Views();
      var acc, active, ok := MixAll(frames, views0);
      out := if ok then Some(Finish(acc, active, frames, channels)) else None;
    }

    /** The loop of `mix` over the streams in dictionary order, from the
        states `views0`: it stops at the first turn that raises (`ok`
        false) and otherwise returns the float output and the number of
        blocks added. */
    method MixAll(frames: nat, ghost views0: map<string, StreamView>) returns (acc: Rows<real>, active: nat, ok: bool)
      requires Valid() && views0 == Views()
      modifies streams.Values
      ensures Valid() && streams == old(streams) && order == old(order)
      ensures |acc| == frames && HasWidth(acc, channels)
      ensures var k := FirstMisfit(order, views0, channels);
              forall j :: 0 <= j < |order| ==>
                streams[order[j]].View() == if j <= k then AfterMix(views0[order[j]]) else views0[order[j]]
      ensures ok <==> FirstMisfit(order, views0, channels) == |order|
      ensures ok ==> BlocksFit(ActiveBlocks(order, views0), channels) &&
                     Finish(acc, active, frames, channels) == Render(ActiveBlocks(order, views0), frames, channels)
    {
      acc := ZeroGrid(frames, channels);
      ghost var taken: seq<Block> := [];
      active := 0;
      var i := 0;
      ok := true;
      MixStart(frames, views0);
      while i < |order| && ok
        invariant i <= |order| && Indexed() && MixLoop(i, ok, frames, views0, taken, acc, active)
        invariant |acc| == frames && HasWidth(acc, channels)
      {
        acc, taken, active, ok := MixStep(i, frames, views0, taken, acc, active);
        i := i + 1;
      }
      MixOutcome(i, ok, frames, views0, taken, acc, active);
    }

    /** The invariant of the loop in `mix` after `i` turns: still going,
        or stopped by the raise in turn `i - 1`. */
    ghost predicate MixLoop(i: nat, ok: bool, frames: nat, views0: map<string, StreamView>, taken: seq<Block>,
                            acc: Rows<real>, active: nat)
      reads this, streams.Values
    {
      (ok ==> MixedUpTo(i, frames, views0, taken, acc, active) && FitsBefore(order, views0, channels, i)) &&
      (!ok ==> 0 < i && StreamsMixed(i, views0) && FirstMisfit(order, views0, channels) == i - 1)
    }

    /** The loop in `mix` starts from the streams as they are. */
    lemma MixStart(frames: nat, views0: map<string, StreamView>)
      requires Valid() && views0 == Views()
      ensures MixLoop(0, true, frames, views0, [], ZeroGrid(frames, channels), 0)
    {
      assert order[..0] == [];
    }

    /** What the loop in `mix` has done once it stops. */
    lemma MixOutcome(i: nat, ok: bool, frames: nat, views0: map<string, StreamView>, taken: seq<Block>,
                     acc: Rows<real>, active: nat)
      requires i <= |order| && Indexed() && MixLoop(i, ok, frames, views0, taken, acc, active)
      requires ok ==> i == |order|
      ensures Valid()
      ensures var k := FirstMisfit(order, views0, channels);
              forall j :: 0 <= j < |order| ==>
                streams[order[j]].View() == if j <= k then AfterMix(views0[order[j]]) else views0[order[j]]
      ensures ok <==> FirstMisfit(order, views0, channels) == |order|
      ensures ok ==> BlocksFit(ActiveBlocks(order, views0), channels) &&
                     Finish(acc, active, frames, channels) == Render(ActiveBlocks(order, views0), frames, channels)
    {
      if ok {
        FirstMisfitAt(order, views0, channels, i);
        assert order[..|order|] == order;
      }
    }

    /** The streams after `mix` has taken its turn on the first `n` ids of
        `order`, from the states `views0`. */
    ghost predicate StreamsMixed(n: nat, views0: map<string, StreamView>)
      reads this, streams.Values
    {
      n <= |order| && (forall k :: 0 <= k < |order| ==> order[k] in streams && order[k] in views0) &&
      (forall id :: id in streams ==> streams[id].Valid()) &&
      (forall k :: 0 <= k < |order| ==>
         streams[order[k]].View() == if k < n then AfterMix(views0[order[k]]) else views0[order[k]])
    }

    /** The state `mix` reaches after the first `i` streams of `order`. */
    ghost predicate MixedUpTo(i: nat, frames: nat, views0: map<string, StreamView>, taken: seq<Block>,
                              acc: Rows<real>, active: nat)
      reads this, streams.Values
    {
      StreamsMixed(i, views0) &&
      taken == ActiveBlocks(order[..i], views0) && BlocksFit(taken, channels) &&
      active == |taken| && acc == Accumulate(taken, frames, channels)
    }

    /** One turn of the loop in `mix`: `ok` is false when the turn raised. */
    method MixStep(i: nat, frames: nat, ghost views0: map<string, StreamView>, ghost taken: seq<Block>,
                   acc: Rows<real>, active: nat)
      returns (acc': Rows<real>, ghost taken': seq<Block>, active': nat, ok: bool)
      requires i < |order| && Indexed()
      requires MixLoop(i, true, frames, views0, taken, acc, active)
      modifies streams.Values
      ensures ok == HeadFits(views0[order[i]], channels)
      ensures MixLoop(i + 1, ok, frames, views0, taken', acc', active')
      ensures |acc'| == frames && HasWidth(acc', channels)
    {
      var s := streams[order[i]];
      forall k | 0 <= k < |order| && k != i ensures streams[order[k]] != s {
        DistinctAt(k, i);
      }
      ActiveBlocksSnoc(order, i, views0);
      var got;
      acc', got, ok := MixStream(s, frames, acc);
      taken', active' := taken, active;
      if got.Some? && ok {
        AccumulateSnoc(taken, got.value, frames, channels);
        taken' := taken + [got.value];
        active' := active + 1;
      }
      if !ok {
        FirstMisfitAt(order, views0, channels, i);
      }
    }

    /** The streams after `route_audio` has delivered `block` to the first
        `i` ids of `ids`, from the states `views0`. */
    ghost predicate DeliveredUpTo(ids: seq<string>, i: nat, views0: map<string, StreamView>, block: Block)
      reads this, streams.Values
    {
      i <= |ids| && Indexed() && views0.Keys == streams.Keys &&
      (forall id :: id in views0 ==> |views0[id].buffer| <= STREAM_BUFFER) &&
      (forall id :: id in streams ==> streams[id].Valid()) &&
      (forall id :: id in streams ==>
         streams[id].View() == if id in ids[..i] then Delivered(views0[id], block) else views0[id])
    }

    /** Once every id is handled, the streams are `DeliverAll` of their
        earlier states. */
    lemma DeliveredAll(ids: seq<string>, views0: map<string, StreamView>, block: Block)
      requires DeliveredUpTo(ids, |ids|, views0, block)
      ensures Valid() && Views() == DeliverAll(views0, ids, block)
    {
      assert ids[..|ids|] == ids;
    }

    /** One turn of the loop in `route_audio`: `ids[i]` receives the block
        when it names a stream. */
    method DeliverStep(ids: seq<string>, i: nat, ghost views0: map<string, StreamView>, block: Block)
      requires i < |ids| && NoDuplicates(ids) && DeliveredUpTo(ids, i, views0, block)
      modifies streams.Values
      ensures DeliveredUpTo(ids, i + 1, views0, block)
    {
      var dest := ids[i];
      assert ids[..i + 1] == ids[..i] + [dest];
      forall k | 0 <= k < i ensures ids[k] != dest {
        NoDuplicatesAt(ids, k, i);
      }
      assert dest !in ids[..i];
      if dest in streams {
        var stream := streams[dest];
        stream.AddAudio(block);
        forall id | id in streams
          ensures streams[id].View() == if id in ids[..i + 1] then Delivered(views0[id], block) else views0[id]
        {
          if id != dest {
            assert streams[id].streamId != stream.streamId;
          }
        }
      }
    }

    /** Two positions of `order` hold two different streams. */
    lemma DistinctAt(a: nat, b: nat)
      requires Indexed() && a < |order| && b < |order| && a != b
      ensures order[a] in streams && order[b] in streams && streams[order[a]] != streams[order[b]]
    {
      assert order[a] in order && order[b] in order;
      if a < b {
        NoDuplicatesAt(order, a, b);
      } else {
        NoDuplicatesAt(order, b, a);
      }
    }

    /** One stream's turn in `mix`: its head block, volume-scaled, is
        taken when it contributes and added into the output when it fits;
        `ok` is false when the addition raises. */
    method MixStream(s: AudioStream, frames: nat, acc: Rows<real>)
      returns (acc': Rows<real>, got: Option<Block>, ok: bool)
      requires s.Valid() && |acc| == frames && HasWidth(acc, channels)
      modifies s
      ensures s.Valid() && s.View() == AfterMix(old(s.View()))
      ensures |acc'| == frames && HasWidth(acc', channels)
      ensures got == if Contributes(old(s.View())) then Some(ScaleAll(old(s.buffer)[0], old(s.volume))) else None
      ensures ok == HeadFits(old(s.View()), channels)
      ensures got.Some? && ok ==> Fits(got.value, channels) && acc' == AddInto(acc, got.value, frames, channels)
      ensures got.None? || !ok ==> acc' == acc
    {
      acc', got, ok := acc, None, true;
      if s.enabled {
        var block := s.GetAudio(frames);
        if block.Some? {
          var scaled := ScaleAll(block.value, s.volume);
          ScaleFits(block.value, s.volume, channels);
          got := Some(scaled);
          if Fits(scaled, channels) {
            acc' := AddInto(acc, scaled, frames, channels);
          } else {
            ok := false;
          }
        }
      }
    }
  }

  /** Scaling by the volume keeps a block's shape, so it fits exactly
      when the block does. */
  lemma ScaleFits(b: Block, k: real, channels: nat)
    ensures Fits(ScaleAll(b, k), channels) <==> Fits(b, channels)
  {
    var r := ScaleAll(b, k);
    forall w | w == channels || w == 1
      ensures HasWidth(r, w) <==> HasWidth(b, w)
    {
      assert forall i :: 0 <= i < |b| ==> |r[i]| == |b[i]|;
    }
  }

  /** `order` without `id`. */
  function Without(order: seq<string>, id: string): (r: seq<string>)
    ensures forall x :: x in r <==> x in order && x != id
    ensures NoDuplicates(order) ==> NoDuplicates(r)
  {
    if order == [] then []
    else if order[0] == id then Without(order[1..], id)
    else
      var rest := Without(order[1..], id);
      var r := [order[0]] + rest;
      assert r[1..] == rest;
      r
  }

  lemma WithoutAbsent(order: seq<string>, id: string)
    requires id !in order
    ensures Without(order, id) == order
  {
  }

  // ---------------------------------------------------------------------
  // AudioRouter
  // ---------------------------------------------------------------------

  /** No element occurs twice. */
  predicate NoDuplicates(s: seq<string>)
    decreases |s|
  {
    s == [] || (s[0] !in s[1..] && NoDuplicates(s[1..]))
  }

  /** Two positions of a list without duplicates hold different elements. */
  lemma {:induction false} NoDuplicatesAt(s: seq<string>, i: nat, j: nat)
    requires NoDuplicates(s) && i < j < |s|
    ensures s[i] != s[j]
    decreases i
  {
    if i == 0 {
      assert s[j] == s[1..][j - 1];
    } else {
      NoDuplicatesAt(s[1..], i - 1, j - 1);
    }
  }

  /** Appending an element not yet listed keeps the list duplicate-free. */
  lemma {:induction false} NoDuplicatesSnoc(s: seq<string>, x: string)
    requires NoDuplicates(s) && x !in s
    ensures NoDuplicates(s + [x])
    decreases |s|
  {
    if s != [] {
      assert (s + [x])[1..] == s[1..] + [x];
      NoDuplicatesSnoc(s[1..], x);
    }
  }

  /** `list.remove(x)` of a present element: its first occurrence goes. */
  function RemoveFirst(s: seq<string>, x: string): (r: seq<string>)
    requires x in s
    ensures |r| == |s| - 1
    ensures forall y :: y in r ==> y in s
  {
    if s[0] == x then s[1..] else [s[0]] + RemoveFirst(s[1..], x)
  }

  /** On a list without duplicates `remove` deletes exactly that element. */
  lemma {:induction false} RemoveFirstExact(s: seq<string>, x: string)
    requires x in s && NoDuplicates(s)
    ensures NoDuplicates(RemoveFirst(s, x))
    ensures forall y :: y in RemoveFirst(s, x) <==> y in s && y != x
  {
    if s[0] != x {
      RemoveFirstExact(s[1..], x);
      var r := RemoveFirst(s, x);
      assert r[1..] == RemoveFirst(s[1..], x);
    }
  }

  class AudioRouter {
    var routes: map<string, seq<string>>

    /** Every route list is non-empty and lists a destination once. */
    ghost predicate Valid()
      reads this
    {
      forall src :: src in routes ==> routes[src] != [] && NoDuplicates(routes[src])
    }

    constructor ()
      ensures Valid() && routes == map[]
    {
      routes := map[];
    }

    /** `add_route`: append the destination unless already listed. */
    method AddRoute(source: string, destination: string)
      requires Valid()
      modifies this
      ensures Valid()
      ensures source in routes
      ensures source in old(routes) && destination in old(routes)[source] ==> routes == old(routes)
      ensures source in old(routes) && destination !in old(routes)[source] ==>
                routes == old(routes)[source := old(routes)[source] + [destination]]
      ensures source !in old(routes) ==> routes == old(routes)[source := [destination]]
    {
      if source !in routes {
        routes := routes[source := []];
      }
      assert [] + [destination] == [destination];
      if destination !in routes[source] {
        NoDuplicatesSnoc(routes[source], destination);
        routes := routes[source := routes[source] + [destination]];
      }
    }

    /** `remove_route`: drop the destination; a source left with no
        destination is removed. */
    method RemoveRoute(source: string, destination: string)
      requires Valid()
      modifies this
      ensures Valid()
      ensures source !in old(routes) ==> routes == old(routes)
      ensures source in old(routes) && destination !in old(routes)[source] ==> routes == old(routes)
      ensures source in old(routes) && destination in old(routes)[source] ==>
                var rest := RemoveFirst(old(routes)[source], destination);
                routes == if rest == [] then old(routes) - {source} else old(routes)[source := rest]
    {
      if source in routes {
        if destination in routes[source] {
          RemoveFirstExact(routes[source], destination);
          routes := routes[source := RemoveFirst(routes[source], destination)];
        }
        if routes[source] == [] {
          routes := routes - {source};
        }
      }
    }

    /** `get_destinations`: a copy of the list, empty for an unknown source. */
    function GetDestinations(source: string): (r: seq<string>)
      reads this
      requires Valid()
      ensures NoDuplicates(r)
      ensures source !in routes <==> r == []
      ensures source in routes ==> r == routes[source]
    {
      if source in routes then routes[source] else []
    }

    /** `clear_routes(source)`: one source's routes, or all of them when
        the argument is None or the empty string (both falsy). */
    method ClearRoutes(source: Option<string>)
      requires Valid()
      modifies this
      ensures Valid()
      ensures source.Some? && source.value != "" ==> routes == old(routes) - {source.value}
      ensures source.None? || source.value == "" ==> routes == map[]
    {
      if source.Some? && source.value != "" {
        routes := routes - {source.value};
      } else {
        routes := map[];
      }
    }
  }

  // ---------------------------------------------------------------------
  // MultiStreamManager
  // ---------------------------------------------------------------------

  /** The streams' states after delivering `block` to each id of `ids`
      that names a stream. */
  function DeliverAll(views: map<string, StreamView>, ids: seq<string>, block: Block): map<string, StreamView>
    requires forall id :: id in views ==> |views[id].buffer| <= STREAM_BUFFER
  {
    map id | id in views :: if id in ids then Delivered(views[id], block) else views[id]
  }

  /** Where `route_audio` sends a block from `source`: its destinations,
      or back to the source's own stream when it has none. */
  function Targets(destinations: seq<string>, source: string): (r: seq<string>)
    ensures destinations == [] ==> r == [source]
    ensures destinations != [] ==> r == destinations
  {
    if destinations == [] then [source] else destinations
  }

  class MultiStreamManager {
    const mixer: AudioMixer
    const router: AudioRouter

    ghost predicate Valid()
      reads this, mixer, mixer.streams.Values, router
    {
      mixer.Valid() && router.Valid()
    }

    constructor ()
      ensures Valid() && fresh(mixer) && fresh(router)
      ensures mixer.channels == 2 && mixer.streams == map[] && router.routes == map[]
    {
      mixer := new AudioMixer(2);
      router := new AudioRouter();
    }

    /** `create_stream`: `add_stream` on the mixer. */
    method CreateStream(streamId: string, name: string) returns (s: AudioStream)
      requires Valid()
      modifies mixer
      ensures Valid()
      ensures streamId in mixer.streams && s == mixer.streams[streamId]
      ensures streamId in old(mixer.streams) ==> mixer.streams == old(mixer.streams)
      ensures streamId !in old(mixer.streams) ==> fresh(s) && mixer.streams == old(mixer.streams)[streamId := s]
    {
      s := mixer.AddStream(streamId, name);
    }

    /** `route_audio(block, source)`: queue the block on every routed
        destination that names a stream, or on the source's own stream
        when no route exists; unknown ids are skipped. */
    method RouteAudio(block: Block, source: string)
      requires Valid()
      modifies mixer.streams.Values
      ensures Valid() && mixer.streams == old(mixer.streams) && mixer.order == old(mixer.order)
      ensures mixer.Views() == DeliverAll(old(mixer.Views()), Targets(router.GetDestinations(source), source), block)
    {
      ghost var views0 := mixer.Views();
      var destinations := router.GetDestinations(source);
      var targets := if destinations == [] then [source] else destinations;
      assert NoDuplicates(targets);
      var i := 0;
      while i < |targets|
        invariant i <= |targets| && mixer.DeliveredUpTo(targets, i, views0, block)
      {
        mixer.DeliverStep(targets, i, views0, block);
        i := i + 1;
      }
      mixer.DeliveredAll(targets, views0, block);
      assert targets[..|targets|] == targets;
    }

    /** `get_mixed_audio`: `mix` on the mixer, raising (None) where it does. */
    method GetMixedAudio(frames: nat) returns (out: Option<Rows<int>>)
      requires Valid()
      modifies mixer.streams.Values
      ensures Valid() && mixer.streams == old(mixer.streams) && mixer.order == old(mixer.order)
      ensures var k := FirstMisfit(mixer.order, old(mixer.Views()), mixer.channels);
              forall j :: 0 <= j < |mixer.order| ==>
                mixer.streams[mixer.order[j]].View() ==
                  if j <= k then AfterMix(old(mixer.Views())[mixer.order[j]]) else old(mixer.Views())[mixer.order[j]]
      ensures out.Some? <==> FirstMisfit(mixer.order, old(mixer.Views()), mixer.channels) == |mixer.order|
      ensures out.Some? ==> BlocksFit(ActiveBlocks(mixer.order, old(mixer.Views())), mixer.channels) &&
                            out.value == Render(ActiveBlocks(mixer.order, old(mixer.Views())), frames, mixer.channels)
    {
      out := mixer.Mix(frames);
    }
  }
}
