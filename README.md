# MPX audio link — a Dafny model

This project models the transport and DSP engine of the MPX/PCM audio link. That engine is a set of Python programs that carry int16 or float32 audio blocks from a sound-card input to a remote output over TCP or UDP. The project proves properties of that engine. The modules follow the programs:

- `Common`: optional values and bytes. It models `collections.deque(maxlen=…)` as a bounded window, and `struct.pack('!I')`/`struct.unpack('!I')` as big-endian 32-bit packing that fails outside its range.
- `Pcm`: the int16 little-endian sample bytes `tobytes`/`frombuffer` write and read, and `reshape(-1, width)`. It also covers the truncating `astype(np.int16)` cast and the copy-or-zero-fill of an output buffer.
- `Encryption`: the detection-only FEC stage (payload plus a 16-byte MD5 digest). It also covers AES-CFB-128 (section 6.3 of NIST SP 800-38A), written out over an arbitrary block function, with PBKDF2 key derivation, and the time-boxed SHA-256 token check.
- `Monitoring`: the stream monitor's counters, its loss inferred from sequence gaps, its two 100-sample windows, the derived statistics and `reset`.
- `AudioProcessing`: the AGC with one gain update per frame, the limiter clamp, `process` (scale, AGC, limiter, back to int16) and the two-channel peak holder. It also covers the FFT sample window with its in-band maximum selection.
- `AudioUtils`: dB metering with the -60 dB floor, and `normalize_db`.
- `Multistream`: per-stream bounded queues with an enable flag and a clamped volume; the additive mixer with averaging, clipping and int16 conversion; the router; and the manager that delivers along routes.
- `Transport`: socket arrival scripts; `recv_exact`, which accumulates partial reads; and the send side's sinks and device streams.
- `Wire`: the pro framing (`seq ++ len ++ payload` over TCP, `seq ++ payload` over UDP, FEC then encryption) and the length-only framing of the basic programs. Each comes with its parsers and with the decode order decrypt, then FEC-check, then reshape.
- `Jitter`, `Playback`: the receivers' bounded block FIFO, and the output callback's writes into a frames × channels array.
- `Sender`, `Receiver`, `SenderPro`, `ReceiverPro`: the four `mpx_*` programs as classes, covering their callbacks, their receive loops with the reconnect state machine, and their start and stop operations. End-to-end lemmas show that what a sender writes is what the matching receiver delivers, in order.
- `Backend`: the desktop app's backend, covering:
  - the netmask conversions in both directions (section 3.1 of RFC 4632) and their round trip;
  - the float32 sender packet and the receive loop that parses it;
  - the channel modes and numpy broadcasting in the playback callback;
  - `start_stream` and `stop_stream`.

Socket I/O, `time.time()`, `os.urandom`, the success of sends and connects, and the cryptographic and numeric primitives are all parameters of the model. The receive loops run over finite arrival scripts, one script per connection attempt.

## Model

| member | source | states |
|---|---|---|
| AudioUtils.Audio.Column | audio_utils.py:29-33 | a one-dimensional block is read as a single column (`reshape(-1, 1)`); column `j` has one sample per row |
| AudioUtils.ChannelDb | audio_utils.py:35-42 | a channel's level is never below -60 dB; it is exactly -60 dB when the RMS is not positive, and otherwise `20·log10(rms)` or the -60 dB floor above it |
| AudioUtils.CalculateDbFs | audio_utils.py:21-44 | both levels are at least -60 dB; an empty block reads (-60, -60); the left level is column 0's; the right level is column 1's when there are two or more columns, and repeats the left one otherwise |
| AudioUtils.NormalizeDb | audio_utils.py:47-53 | the bar value lies in [0, 1]; it is 0 at or below the minimum and 1 at or above the maximum; in between it is the linear position of the level |
| AudioUtils.NormalizeMonotone | audio_utils.py:47-53 | a louder level never gives a shorter bar |
| Monitoring.GapLoss | monitoring.py:33-36 | a received sequence number adds losses if and only if one was seen before and the new one jumps past the next expected number; the loss is then the size of the gap |
| Monitoring.LossExamples | monitoring.py:28-39 | the run 0,1,2,5,6 counts two losses; a repeated number counts none |
| Monitoring.LossOver | monitoring.py:28-39 | a run in which no sequence number is more than one past the one before it counts no loss |
| Monitoring.LossCountsSkipped | monitoring.py:28-39 | over a strictly increasing run, the counted loss is exactly the number of sequence numbers skipped |
| Monitoring.LossOverAppend | monitoring.py:28-39 | the loss over two consecutive runs is the sum of the losses over each, the second starting from the last number of the first |
| Monitoring.StreamMonitor.constructor | monitoring.py:8-18 | all counters start at zero, both sample windows empty, no start time, no sequence seen |
| Monitoring.StreamMonitor.Start | monitoring.py:20-21 | records the start time and changes nothing else |
| Monitoring.StreamMonitor.RecordPacketSent | monitoring.py:23-26 | one more packet sent and `size` more bytes sent; every other field unchanged |
| Monitoring.StreamMonitor.RecordPacketReceived | monitoring.py:28-39 | one more packet and `size` more bytes received; with a sequence number the loss grows by the gap and the number becomes the last one seen; without one neither changes |
| Monitoring.StreamMonitor.RecordLatency | monitoring.py:41-43 | the latency window gains the sample and keeps its last 100 entries; nothing else changes |
| Monitoring.StreamMonitor.RecordQuality | monitoring.py:45-47 | the quality window gains the sample and keeps its last 100 entries; nothing else changes |
| Monitoring.StreamMonitor.GetStats | monitoring.py:49-77 | the uptime is 0 without a (truthy) start time; the counters are reported as kept; the loss rate is the percentage of losses against packets sent, or against packets received when none were sent, and 0 with no packets; the bit rate is bytes sent times 8 per second of uptime; the minimum and maximum latency are members of the window and bound every sample, and the average lies between them (all 0 for an empty window); the average quality lies between the window's extremes (100 for an empty window) |
| Monitoring.StreamMonitor.Reset | monitoring.py:79-89 | every field returns to its constructor value |
| Monitoring.StreamMonitor.FirstSequenceNoLoss | monitoring.py:18 | after construction or a reset, the first sequenced packet never counts as lost |
| Monitoring.LossRateBounded | monitoring.py:59-60 | the loss rate is a percentage in [0, 100] whenever the losses do not outnumber the packets they are measured against |
| AudioProcessing.RowPeak | audio_processing.py:25 | a frame's peak is non-negative, bounds the magnitude of every sample and is the magnitude of one of them |
| AudioProcessing.AgcOutput | audio_processing.py:22-34 | the AGC output has one frame per input frame |
| AudioProcessing.AgcStep | audio_processing.py:27-30 | the attack branch when the frame peak exceeds gain × target, the release branch otherwise; with coefficients in (0, 1) the new gain lies between the old gain and that branch's goal (target/(peak+eps) or 1.0) |
| AudioProcessing.AgcStepPositive | audio_processing.py:27-30 | one gain update keeps a positive gain positive |
| AudioProcessing.AgcReleaseTowardsUnity | audio_processing.py:29-30 | a frame at or below the target moves the gain towards 1.0 without crossing it |
| AudioProcessing.AgcAttackTowardsTarget | audio_processing.py:27-28 | a frame above the target moves the gain towards the gain that would put the frame's peak at the target level, without crossing it |
| AudioProcessing.FinalGainSnoc | audio_processing.py:24-32 | the gain after frame `i` is one update, by frame `i`'s peak, of the gain after the frames before it |
| AudioProcessing.FinalGain | audio_processing.py:24-32 | no frames leave the starting gain; from a positive gain, with both coefficients in (0, 1), the gain stays positive over any number of frames |
| AudioProcessing.SilenceKeepsUnity | audio_processing.py:24-32 | at unity gain, silence keeps the gain at exactly 1.0 |
| AudioProcessing.SilenceOutputsSilence | audio_processing.py:18-34 | at unity gain, the AGC output of a silent block is that block |
| AudioProcessing.Clip | audio_processing.py:41 | `np.clip` never exceeds the upper bound, never goes below the lower one when the bounds are ordered, and leaves values within the bounds alone |
| AudioProcessing.ClipRows | audio_processing.py:41 | the clipped block has the input's shape and each sample clipped |
| AudioProcessing.ToReal | audio_processing.py:46 | each int16 sample divided by 32768, shape kept |
| AudioProcessing.Quantise | audio_processing.py:51 | each sample times 32768, converted with `astype(np.int16)`; the result is int16 and keeps the shape |
| AudioProcessing.AudioProcessor.constructor | audio_processing.py:5-16 | both stages off, unity gain, the sample rate and the two coefficients as given |
| AudioProcessing.AudioProcessor.ApplyAgc | audio_processing.py:18-34 | while disabled, the block comes back unchanged and so does the gain; otherwise the output is the frame-by-frame AGC output, and the gain is the one after the last frame |
| AudioProcessing.AudioProcessor.ApplyLimiter | audio_processing.py:36-43 | while disabled, the block comes back unchanged; otherwise the shape is kept, every sample lies within ±threshold, and samples already within it are unchanged |
| AudioProcessing.AudioProcessor.Process | audio_processing.py:45-51 | the output is the chain scale, AGC, limiter, quantise, run on the processor's switches; the gain moves on exactly as the AGC leaves it |
| AudioProcessing.Processed | audio_processing.py:45-51 | the chain's output is int16 and has the input's shape |
| AudioProcessing.ProcessedIdentity | audio_processing.py:45-51 | with both stages off, an int16 block comes back unchanged |
| AudioProcessing.ProcessedLimited | audio_processing.py:36-51 | with the limiter on, no output sample exceeds 31129 (0.95 of full scale) in magnitude, whatever the AGC did |
| AudioProcessing.NewProcessor | audio_processing.py:5-16 | a fresh processor with the two switches as requested and unity gain |
| AudioProcessing.PeakStep | audio_processing.py:121-126 | the held peak is never below the current level; a higher level becomes the peak and restarts the hold; within the hold time the peak stays; after it, the peak drops by `decay_rate * 0.1` but not below the current level; with a non-negative decay it never rises above the larger of the level and the old peak |
| AudioProcessing.PeakHolder.constructor | audio_processing.py:110-116 | both peaks at -60 dB, both peak times 0, hold time and decay rate as given |
| AudioProcessing.PeakHolder.Update | audio_processing.py:118-135 | each channel takes one peak step independently; the returned peaks are the new peaks and are at least the current levels |
| AudioProcessing.AsAudio | audio_processing.py:62 | an int16 block as a matrix whose mono channel is its channel 0 |
| AudioProcessing.FFTAnalyzer.constructor | audio_processing.py:55-59 | an empty window of the given size and rate |
| AudioProcessing.FFTAnalyzer.AddSamples | audio_processing.py:61-63 | the window becomes the last `fft_size` samples of the old window followed by the block's mono samples |
| AudioProcessing.FFTAnalyzer.BandMax | audio_processing.py:88-90 | there is no result if and only if no bin is in the band; otherwise the result is the dB of an in-band bin and no in-band bin is louder |
| AudioProcessing.Mono | audio_processing.py:62 | a vector is kept as it is; of a matrix, one sample per frame, from column 0 |
| AudioProcessing.FFTAnalyzer.BandLevel | audio_processing.py:65-106 | -60 dB while the window is not full or when no bin is in the band; otherwise the loudest in-band bin |
| AudioProcessing.FFTAnalyzer.PilotToneLevel | audio_processing.py:80-92 | for the band 19 kHz ± 100 Hz, bounds included: -60 dB while the window is not full or when no bin lies in the band; otherwise the dB of an in-band bin that no in-band bin exceeds |
| AudioProcessing.FFTAnalyzer.SubcarrierLevel | audio_processing.py:94-106 | for the band 38 kHz ± 200 Hz, bounds included: -60 dB while the window is not full or when no bin lies in the band; otherwise the dB of an in-band bin that no in-band bin exceeds |
| Common.Append | mpx_receiver_pro.py:34 | `append` on a deque with a `maxlen`: below capacity the item is added at the end; at capacity the oldest item is dropped first; the length never exceeds the bound |
| Common.AppendAllIsExtend | mpx_receiver.py:23 | appending items one at a time to a bounded deque leaves the same window as `extend` with all of them: the last `maxlen` items of the concatenation |
| Common.AppendAllBounded | mpx_receiver.py:23 | a bounded deque never holds more than its `maxlen`, and holds everything while fewer items have been added |
| Common.ExtendTwice | mpx_receiver_pro.py:34 | extending a bounded deque by two runs in turn is extending it by both at once |
| Common.PackU32 | mpx_sender_pro.py:469 | `struct.pack('!I', n)` succeeds exactly for 0 <= n < 2^32 and yields 4 bytes |
| Common.UnpackU32 | mpx_receiver_pro.py:444 | `struct.unpack('!I', b)` succeeds exactly for 4 bytes and yields a value below 2^32 |
| Common.UnpackPack | mpx_receiver_pro.py:444 | unpacking a packed number gives it back |
| Common.PackUnpack | mpx_sender_pro.py:469 | packing an unpacked 4-byte header gives the same bytes back |
| Common.Mean | monitoring.py:53 | the mean of a non-empty window lies between its minimum and maximum; an empty window gives the default |
| Pcm.Reshape | mpx_receiver.py:156 | `reshape(-1, width)` succeeds exactly when the width is positive and divides the sample count; the rows then have that width and flatten back to the samples |
| Pcm.ReshapeFlatten | mpx_receiver.py:156 | reshaping a flattened block by its own width gives the block back |
| Pcm.BytesToSamples | mpx_receiver.py:156 | `np.frombuffer(b, dtype=np.int16)` succeeds exactly for an even byte count and yields one int16 sample per two bytes |
| Pcm.BytesToSamplesRoundTrip | mpx_sender.py:183 | decoding the little-endian bytes of int16 samples gives the samples back |
| Pcm.ParseBlock | mpx_receiver.py:156 | frombuffer-then-reshape succeeds exactly when the byte count is even and the sample count divides into frames of the width; the frames are int16 and have that width |
| Pcm.ParseToBytes | mpx_receiver.py:156 | parsing the bytes of an int16 block with its own width gives the block back |
| Pcm.Trunc | audio_processing.py:51 | a float-to-int conversion truncates toward zero |
| Pcm.Wrap16 | audio_processing.py:51 | the result is an int16 congruent to its input modulo 2^16, and an int16 input is left alone |
| Pcm.ToInt16 | audio_processing.py:51 | `astype(np.int16)` always yields an int16, and truncates toward zero for values in range |
| Pcm.Fit | mpx_receiver.py:229-233 | the output has the requested frame count and width; it holds the chunk's frames where the chunk has them and silence after |
| Pcm.FirstColumn | mpx_receiver_pro.py:564 | `chunk[:, 0].reshape(-1, 1)` keeps channel 0 of each frame as a one-sample frame |
| Common.LastN | audio_processing.py:59 | the window keeps `n` items, or all of them when there are fewer |
| Common.LastNSuffix | audio_processing.py:59 | the window is the tail of what was added |
| Common.LastNOfLastN | audio_processing.py:59 | trimming the window before adding more does not change the window that results |
| Common.ExtendCons | audio_processing.py:59 | appending one item and then extending is extending by both |
| Common.MaxOf | monitoring.py:54 | the maximum is an element and bounds every element from above |
| Common.MinOf | monitoring.py:55 | the minimum is an element and bounds every element from below |
| Common.MeanBounds | monitoring.py:53 | the average of a non-empty window lies between its minimum and maximum |
| Common.AverageWithin | monitoring.py:53-57 | the average of values within bounds is within them |
| Common.WithinMinMax | monitoring.py:54-55 | every element lies between the minimum and the maximum |
| Common.ClampReal | multistream.py:78 | `max(lo, min(hi, x))` lies in [lo, hi] and leaves a value already there unchanged |
| Pcm.FlattenLength | mpx_sender.py:183 | a block of `width` columns flattens to frames × width samples |
| Pcm.Chunks | mpx_receiver.py:156 | grouping samples by `width` yields frames of `width` samples |
| Pcm.FlattenChunks | mpx_receiver.py:156 | flattening the groups gives the samples back |
| Pcm.ChunksFlatten | mpx_receiver.py:156 | grouping a flattened block by its width gives the block back |
| Pcm.Int16Bytes | mpx_sender.py:183 | two bytes per int16 sample |
| Pcm.DecodeInt16 | mpx_receiver.py:156 | two bytes read as an int16 sample lie in the int16 range |
| Pcm.DecodeInt16Bytes | mpx_sender.py:183 | decoding a sample's two bytes gives the sample back |
| Pcm.ToBytes | mpx_sender_pro.py:464 | an int16 block gives two bytes per sample, and reading them with `frombuffer` gives the flattened block back |
| Pcm.SamplesToBytes | mpx_sender.py:183 | two bytes per sample |
| Pcm.DecodeAll | mpx_receiver.py:156 | one int16 sample per two bytes |
| Pcm.DecodeAllRoundTrip | mpx_sender.py:183 | decoding the bytes of some int16 samples gives those samples back |
| Pcm.FlattenInt16 | mpx_sender.py:183 | an int16 block flattens to int16 samples |
| Pcm.Zeros | mpx_receiver.py:232 | a frame of silence |
| Pcm.ScaleAll | multistream.py:60 | every frame of the block multiplied by the volume |
| Jitter.Deque.constructor | mpx_receiver_pro.py:34 | an empty deque with the given `maxlen` |
| Jitter.Deque.Append | mpx_receiver.py:158-159 | the deque becomes the bounded append of the block: the oldest block is dropped when full |
| Jitter.Deque.PopLeft | mpx_receiver.py:227-228 | returns the oldest block and removes exactly it |
| Jitter.Deque.Clear | mpx_receiver.py:300-301 | the deque is empty |
| Playback.FillZeros | mpx_receiver.py:223 | `outdata.fill(0)` leaves every frame silent |
| Playback.FillFrom | mpx_receiver.py:229-233 | the output array holds the chunk's first frames, then silence where the chunk is shorter |
| Transport.SizeAppend | mpx_receiver.py:213 | what is left to read over two scripts adds up |
| Transport.Socket.constructor | mpx_receiver.py:140-142 | a connected socket whose reads follow the given script |
| Transport.Socket.Recv | mpx_receiver.py:213 | `recv(max)` returns the next arrival's bytes, at most `max` of them, keeping the rest for the next read; a fault raises (None); a closed peer reads as empty; every read on a non-exhausted script consumes something |
| Transport.Socket.Close | mpx_receiver.py:168-173 | the socket is closed and nothing else changes |
| Transport.Take | mpx_receiver_pro.py:539-551 | a completed read holds exactly the `n` bytes asked for |
| Transport.TakeAvail | mpx_receiver.py:207-219 | reading `n` bytes succeeds exactly when `n` is 0 or the stream has at least `n` bytes before its end; the bytes read are the next `n` of the stream and the rest of the stream follows them |
| Transport.TakeShrinks | mpx_receiver.py:207-219 | a successful read of at least one byte consumes part of the script, so the read loop ends |
| Transport.RecvExact | mpx_receiver.py:207-219 | while running, the loop returns exactly `n` bytes, or None when a read is empty or raises, as `Take` describes; once stopped it returns None before reading |
| Transport.Received | mpx_receiver.py:188 | `recvfrom(65536)` keeps at most the first 65536 bytes of a datagram, and a shorter datagram whole |
| Transport.JoinedSnoc | mpx_sender.py:185 | one more `sendall` appends its bytes to the stream |
| Transport.Sink.constructor | mpx_sender.py:134 | a connected socket that has sent nothing |
| Transport.Sink.Send | mpx_sender.py:185 | a send completes if and only if the network takes it and the socket is open; only a completed send adds its bytes |
| Transport.Sink.Close | mpx_sender.py:256-261 | the socket is closed and what was sent stays |
| Transport.FirstConnectionAt | mpx_sender.py:132-143 | a client is accepted exactly when some `accept()` connects and every call before it timed out |
| Transport.AcceptLoop | mpx_sender.py:132-143 | the accept loop connects if and only if the sender is running and the first `accept()` that does not time out connects |
| Transport.DeviceStream.constructor | mpx_sender.py:164-172 | a started audio stream |
| Transport.DeviceStream.StopAndClose | mpx_sender.py:248-254 | the stream is stopped and closed |
| Wire.WirePayload | mpx_sender_pro.py:472-476 | the payload is the PCM bytes, lengthened by the checksum when FEC is on and by the IV when encryption is on |
| Wire.TcpPacket | mpx_sender_pro.py:469-479 | the packet exists exactly when the sequence number and the payload length fit 32 bits; its first 4 bytes read back as the sequence number, the next 4 as the payload length, and the rest is the payload |
| Wire.UdpPacket | mpx_sender_pro.py:499-508 | the datagram exists exactly when the sequence number fits 32 bits; its first 4 bytes read back as the sequence number and the rest is the payload |
| Wire.LengthPacket | mpx_sender.py:183-185 | the packet exists exactly when the PCM length fits 32 bits; its header reads back as that length and the rest is the PCM |
| Wire.NextFrame | mpx_receiver_pro.py:440-453 | a frame that is read consumes part of the script and has a non-empty payload |
| Wire.NextFrameOfPacket | mpx_receiver_pro.py:440-453 | a stream that starts with a pro TCP packet yields that packet's sequence number and payload, and the stream after it is left, however the bytes are segmented |
| Wire.NextLengthFrame | mpx_receiver.py:147-154 | a frame that is read consumes part of the script and is non-empty |
| Wire.NextLengthFrameOfPacket | mpx_receiver.py:147-154 | a stream that starts with a length-prefixed packet yields that packet's PCM, and the stream after it is left |
| Wire.DecodePayload | mpx_receiver_pro.py:455-463 | an accepted payload gives an int16 stereo block whose samples match the decoded bytes; with encryption on, a payload shorter than the IV raises; only FEC skips a packet; with both stages off, a payload is accepted exactly when numpy can reshape it, and then as is |
| Wire.ReshapeOfParse | mpx_receiver_pro.py:463 | a parsed block has one sample per two bytes |
| Wire.DecodeWirePayload | mpx_receiver_pro.py:455-463 | decoding what the sender encoded, with the same FEC, cipher and IV, gives the sent PCM and block back |
| Wire.DecodeDatagram | mpx_receiver_pro.py:501-516 | a datagram shorter than the header is dropped; an accepted one gives an int16 stereo block and the sequence number its first 4 bytes hold |
| Wire.DecodeSentDatagram | mpx_receiver_pro.py:501-516 | a datagram the pro sender built is accepted with its sequence number and block |
| Sender.MpxSender.constructor | mpx_sender.py:20-23 | stopped, with no stream and no sockets |
| Sender.MpxSender.StartSender | mpx_sender.py:98-116 | raises the running flag and runs the thread for the chosen protocol: over TCP a client and a stream exist exactly when a connection is accepted; over UDP a stream always exists |
| Sender.MpxSender.TcpSenderThread | mpx_sender.py:122-148 | a fresh listener; a client socket and an input stream only when the accept loop connects while running |
| Sender.MpxSender.UdpSenderThread | mpx_sender.py:150-160 | a fresh connected datagram socket and an input stream |
| Sender.MpxSender.TcpAudioCallback | mpx_sender.py:178-188 | while running, a completed send puts the length-prefixed packet of the block on the connection; when stopped, or when the send fails, nothing is added |
| Sender.MpxSender.UdpAudioCallback | mpx_sender.py:190-199 | while running, a completed send puts the block's bytes on the socket as one datagram; otherwise nothing is added |
| Sender.MpxSender.StopSender | mpx_sender.py:245-268 | stopped; the stream and both sockets are closed if present and dropped |
| Sender.LengthStreamHead | mpx_sender.py:183-185 | the stream for a run of blocks starts with the first block's packet |
| Sender.LengthStreamSnoc | mpx_sender.py:178-188 | one more callback extends the stream by that block's packet |
| Sender.CallbackExtendsStream | mpx_sender.py:178-188 | the `sendall`s of the TCP callbacks, in order, put on the connection the stream of the blocks they were handed |
| Sender.SentBlockReadsBack | mpx_receiver.py:146-156 | the original receiver reads back, from one packet of the original sender, the block that was sent, whatever the split |
| Receiver.ReadBlock | mpx_receiver.py:146-156 | a block that is read consumes part of the script and is an int16 stereo block |
| Receiver.DatagramBlock | mpx_receiver.py:186-200 | one datagram gives at most one block |
| Receiver.SessionReadsLengthStream | mpx_receiver.py:146-159 | a connection carrying the original sender's stream for a run of blocks delivers exactly those blocks, however the stream is segmented |
| Receiver.DatagramReadsBack | mpx_receiver.py:186-192 | the original sender's datagram for a stereo block that fits 65536 bytes is read back as that block |
| Receiver.RecvLengthFrame | mpx_receiver.py:147-154 | the two `recv_exact` calls yield the next length-prefixed frame and consume it, or None where the stream ends or a read raises |
| Receiver.MpxReceiver.constructor | mpx_receiver.py:20-28 | stopped, no stream, no socket, an empty buffer of 50 blocks |
| Receiver.MpxReceiver.StartReceiver | mpx_receiver.py:101-125 | both flags raised and a fresh output stream |
| Receiver.MpxReceiver.BufferBlock | mpx_receiver.py:158-159 | the block is appended to the 50-block buffer, the oldest dropped when full |
| Receiver.MpxReceiver.ReadPass | mpx_receiver.py:146-159 | one pass of the read loop: it goes on exactly when a block is read, which is then appended to the buffer; otherwise the buffer is unchanged |
| Receiver.MpxReceiver.ReadConnection | mpx_receiver.py:146-159 | while running, the buffer is extended by the blocks the connection delivers, in order; when stopped nothing changes |
| Receiver.MpxReceiver.ConnectAndRead | mpx_receiver.py:138-173 | one connection attempt: the buffer is extended by what the connection delivers (nothing for a refused one) and the socket is dropped afterwards |
| Receiver.MpxReceiver.TcpReceiverThread | mpx_receiver.py:136-177 | while both flags are up, every scripted attempt is made and followed by a wait, and the buffer is extended by all their blocks in order; otherwise nothing happens |
| Receiver.MpxReceiver.ReconnectStep | mpx_receiver.py:137-177 | one turn of the reconnect loop keeps the loop invariant: flags up, stream kept, what the later attempts deliver still leads to the final buffer |
| Receiver.MpxReceiver.ReceiveDatagram | mpx_receiver.py:186-200 | a datagram numpy can reshape is appended as a block; any other changes nothing |
| Receiver.MpxReceiver.UdpReceiverThread | mpx_receiver.py:179-205 | while running, the buffer is extended by the blocks of the datagrams in order; when stopped nothing changes |
| Receiver.MpxReceiver.AudioOutputCallback | mpx_receiver.py:221-235 | when stopped or the buffer is empty, silence and an unchanged buffer; otherwise the oldest block is removed and fills the output, zero-padded where it is short |
| Receiver.MpxReceiver.StopReceiver | mpx_receiver.py:281-301 | both flags down; the stream and the socket closed if present and dropped; the buffer emptied |
| Encryption.FecEncoder.Encode | encryption.py:94-99 | disabled, the data unchanged; enabled, the data followed by its 16-byte MD5 digest |
| Encryption.FecEncoder.Decode | encryption.py:101-113 | disabled, the data marked valid; enabled, fewer than 16 bytes are returned unchanged and invalid; otherwise the payload is everything but the last 16 bytes, valid exactly when those bytes are the payload's digest |
| Encryption.FecEncoder.DecodeEncode | encryption.py:94-113 | decoding an encoding gives the data back, marked valid |
| Encryption.FecEncoder.ValidIffEncoding | encryption.py:101-113 | an enabled decoder marks a packet valid exactly when it is the encoding of the payload it returns |
| Encryption.XorBitsCancel | encryption.py:35-41 | XOR with the same value twice is the identity |
| Encryption.XorByteCancel | encryption.py:35-41 | XOR of a byte with the same byte twice gives it back |
| Encryption.XorSegmentCancel | encryption.py:35-41 | XOR of a segment with the same keystream twice gives it back |
| Encryption.CfbEncrypt | encryption.py:35-41 | CFB-128 encryption keeps the length |
| Encryption.CfbDecrypt | encryption.py:52-58 | CFB-128 decryption keeps the length |
| Encryption.CfbRoundTrip | encryption.py:30-60 | CFB decryption inverts CFB encryption for the same key and IV, for any block function |
| Encryption.AudioEncryption.constructor | encryption.py:10-16 | a non-empty password enables the cipher with the PBKDF2 key of that password; no password or an empty one leaves it disabled |
| Encryption.AudioEncryption.SetPassword | encryption.py:18-28 | enabled, with the key PBKDF2-HMAC-SHA256 derives from the password, the fixed salt, 100000 iterations and 32 bytes |
| Encryption.AudioEncryption.Encrypt | encryption.py:30-43 | disabled, the data unchanged; enabled, the IV followed by a ciphertext as long as the data |
| Encryption.AudioEncryption.Decrypt | encryption.py:45-60 | disabled, the data unchanged; enabled, it succeeds exactly when there are at least 16 bytes, and yields 16 bytes fewer |
| Encryption.AudioEncryption.DecryptEncrypt | encryption.py:30-60 | decrypting an encryption gives the data back, whatever the IV, enabled or not |
| Encryption.AuthenticationManager.GenerateToken | encryption.py:68-73 | the token is empty exactly when authentication is disabled; otherwise it is the SHA-256 hex digest of `"<timestamp>:<secret>"` |
| Encryption.AuthenticationManager.VerifyToken | encryption.py:75-86 | disabled, every token passes; enabled, a timestamp outside the tolerance fails, and a passing token is the one generated for the timestamp |
| Encryption.AuthenticationManager.GeneratedTokenVerifies | encryption.py:68-86 | a generated token verifies within the tolerance |
| SenderPro.InputChannels | mpx_sender_pro.py:442 | the input stream has one channel in MPX mode and two otherwise, never none |
| SenderPro.Framed | mpx_sender_pro.py:469-508 | the packet exists exactly when the sequence number packs and, over TCP, the payload length packs; it opens with the sequence number and ends with the payload |
| SenderPro.NextSequence | mpx_sender_pro.py:471-472 | the counter goes up by one per packed header and stays at 2^32, where packing the header raises before the increment |
| SenderPro.MpxSenderPro.constructor | mpx_sender_pro.py:21-60 | stopped, stereo, sequence 0, no stream or sockets, encryption off, the default FEC encoder, a fresh monitor and an empty FFT window |
| SenderPro.MpxSenderPro.StartSender | mpx_sender_pro.py:347-392 | the password's key installed only when encryption is switched on with a non-empty password, a fresh FEC encoder when FEC is on, the flag raised, the sequence reset to 0 and the monitor started with only its start time changed; sockets, stream, processor and mode untouched |
| SenderPro.MpxSenderPro.TcpSenderThread | mpx_sender_pro.py:394-421 | a listening socket; once a client is accepted while running, a client socket and a fresh input stream and processor with the chosen switches; otherwise stream, client socket, processor and mode unchanged; the sequence number and the encryption and FEC settings unchanged either way |
| SenderPro.MpxSenderPro.UdpSenderThread | mpx_sender_pro.py:423-433 | a datagram socket, then a fresh input stream and processor with the chosen switches; the sequence number and the encryption and FEC settings unchanged |
| SenderPro.MpxSenderPro.StartAudioStream | mpx_sender_pro.py:435-456 | a fresh processor for the sample rate with the AGC and limiter switches and unit gain, the mode recorded and a fresh input stream; sequence, sockets and security settings unchanged |
| SenderPro.MpxSenderPro.TcpAudioCallback | mpx_sender_pro.py:458-486 | nothing while stopped or unconnected; otherwise the sequence advances, the `seq ++ len ++ payload` packet of the processed, FEC-encoded and encrypted block is sent when framing and sending succeed, and only then the monitor counts the payload and the FFT takes the block; the processor keeps its switches and, with AGC on, its gain moves to the gain after the block's frames, which the next block starts from |
| SenderPro.MpxSenderPro.UdpAudioCallback | mpx_sender_pro.py:488-515 | as the TCP callback, with the `seq ++ payload` datagram on the datagram socket, and the same gain carried on |
| SenderPro.MpxSenderPro.Transmit | mpx_sender_pro.py:470-486 | the socket receives exactly the framed packet when framing and the send succeed and nothing otherwise; the monitor and FFT change exactly when the packet went out |
| SenderPro.MpxSenderPro.StopSender | mpx_sender_pro.py:630-680 | the flag down, the stream stopped and closed, both sockets closed, and all three dropped; the monitor reset; the sequence number, processor, mode and encryption and FEC settings unchanged |
| SenderPro.SentStreamSnoc | mpx_sender_pro.py:458-486 | the byte stream for one block more is the stream so far followed by the next callback's packet |
| SenderPro.SentStreamSnocStep | mpx_sender_pro.py:458-486 | the inductive step of the stream extension |
| SenderPro.PacketBytesOfCallback | mpx_sender_pro.py:470-483 | the packet a TCP callback sends for a block is that block's part of the stream the pro receiver reads |
| ReceiverPro.StereoBlocksSnoc | mpx_receiver_pro.py:463-466 | appending a stereo int16 block to a run of them gives a run of them |
| ReceiverPro.StereoBlocksSuffix | mpx_receiver_pro.py:34 | every suffix of a run of stereo int16 blocks is one |
| ReceiverPro.BlocksAppend | mpx_receiver_pro.py:465-466 | the 100-block jitter buffer holds only stereo int16 blocks after an append |
| ReceiverPro.StepFields | mpx_receiver_pro.py:465-470 | a receiver state whose buffer, counters and FFT window are each what delivering a packet gives is the delivery step |
| ReceiverPro.RunAppend | mpx_receiver_pro.py:439-473 | delivering two runs of packets one after the other is delivering their concatenation |
| ReceiverPro.RunCons | mpx_receiver_pro.py:439-473 | delivering a packet and then a run is delivering the run with that packet in front |
| ReceiverPro.LastNSnoc | mpx_receiver_pro.py:34 | keeping the last n items after each append is keeping the last n of everything appended |
| ReceiverPro.SeqsSnoc | mpx_receiver_pro.py:468 | the loss counted over a run grows by the gap between the last sequence number seen and the new one |
| ReceiverPro.AfterSnoc | mpx_receiver_pro.py:465-470 | the closed form for one packet more is one delivery step on the closed form |
| ReceiverPro.RunIsAfter | mpx_receiver_pro.py:439-473 | delivering packets one at a time leaves the last 100 blocks in the buffer, every packet and its payload bytes counted, the loss over the sequence numbers counted, the last sequence number recorded and the last samples in the FFT window |
| ReceiverPro.ReadOne | mpx_receiver_pro.py:439-463 | one pass of the read loop consumes input whenever it does not stop; a decoded block is stereo int16; it stops exactly when no whole frame is left or decoding raises |
| ReceiverPro.DatagramDecoded | mpx_receiver_pro.py:501-523 | a datagram yields at most one stereo int16 block, and a timeout or failed read yields none |
| ReceiverPro.SendableInt16 | mpx_sender_pro.py:458-486 | every block the pro sender can frame is int16 |
| ReceiverPro.SentStreamHead | mpx_sender_pro.py:470-483 | the byte stream for a run of sendable blocks starts with the framed packet of the first block |
| ReceiverPro.ReadOneOfSent | mpx_receiver_pro.py:439-470 | reading a packet the pro sender framed returns its block under its sequence number and leaves exactly the bytes after it |
| ReceiverPro.SentPackets | mpx_receiver_pro.py:439-470 | one packet per block sent |
| ReceiverPro.SessionReadsSentStream | mpx_receiver_pro.py:439-473 | over TCP, whatever the segmentation, a receiver configured like the sender delivers exactly the blocks sent, in order, under consecutive sequence numbers |
| ReceiverPro.RecvFrame | mpx_receiver_pro.py:439-453 | the three exact reads return the next frame and consume exactly it, and nothing when no whole frame with a non-empty payload is left |
| ReceiverPro.MpxReceiverPro.constructor | mpx_receiver_pro.py:22-60 | stopped, an empty 100-block buffer, no socket or stream, sequence 0, encryption off, the default FEC encoder, a fresh monitor and an empty FFT window |
| ReceiverPro.MpxReceiverPro.StartReceiver | mpx_receiver_pro.py:365-415 | key and FEC from the check boxes, running, reconnecting only with auto-reconnect, sequence 0, the monitor started, a fresh processor with the chosen switches and a fresh output stream; the buffer, every monitor counter and both sample windows unchanged |
| ReceiverPro.MpxReceiverPro.OpenOutput | mpx_receiver_pro.py:400-415 | a fresh processor for the sample rate with the AGC and limiter switches and unit gain, the mode recorded, a fresh output stream |
| ReceiverPro.MpxReceiverPro.SetUpSecurity | mpx_receiver_pro.py:374-381 | the password's key installed only when encryption is on with a non-empty password; a fresh FEC encoder when FEC is on |
| ReceiverPro.MpxReceiverPro.Deliver | mpx_receiver_pro.py:465-470 | one delivery step: buffer, receive counters and FFT window change as the step says and the other monitor fields do not |
| ReceiverPro.MpxReceiverPro.BufferBlock | mpx_receiver_pro.py:465-466 | the buffer keeps the last 100 blocks with the new one at the end, all stereo int16 |
| ReceiverPro.MpxReceiverPro.AnalyzeBlock | mpx_receiver_pro.py:470 | the FFT window keeps its last samples with the block's channel 0 appended |
| ReceiverPro.MpxReceiverPro.ReadFrame | mpx_receiver_pro.py:439-470 | one pass of the inner loop does what `ReadOne` says: stop, skip or deliver, consuming the frame |
| ReceiverPro.MpxReceiverPro.HandleFrame | mpx_receiver_pro.py:455-470 | a frame whose decoding raises drops the connection; a bad checksum is skipped; an accepted payload is delivered |
| ReceiverPro.MpxReceiverPro.ReadConnection | mpx_receiver_pro.py:439-473 | while running, reading a connection delivers exactly the packets the connection's bytes decode to |
| ReceiverPro.MpxReceiverPro.TcpReceiverThread | mpx_receiver_pro.py:428-490 | with both flags up, every attempt is made and followed by a wait, the socket ends dropped and the packets of every connection are delivered in order; otherwise nothing happens |
| ReceiverPro.MpxReceiverPro.ReconnectStep | mpx_receiver_pro.py:429-490 | one attempt of the reconnect loop keeps the loop invariant and leaves no socket |
| ReceiverPro.MpxReceiverPro.ConnectAndRead | mpx_receiver_pro.py:430-486 | a refused connection delivers nothing; an accepted one delivers its packets; the socket is dropped either way |
| ReceiverPro.MpxReceiverPro.ReceiveDatagram | mpx_receiver_pro.py:500-532 | a datagram that decodes is delivered; any other changes nothing |
| ReceiverPro.MpxReceiverPro.UdpReceiverThread | mpx_receiver_pro.py:492-537 | while running, the packets of every decodable datagram are delivered in order |
| ReceiverPro.MpxReceiverPro.ListenStep | mpx_receiver_pro.py:499-532 | one turn of the UDP loop keeps the loop invariant |
| ReceiverPro.MpxReceiverPro.AudioOutputCallback | mpx_receiver_pro.py:553-574 | silence and no change when stopped or the buffer is empty; otherwise the oldest block is popped, reduced to channel 0 in MPX mode, cut to the frame count, processed and written in front of zeros; the processor keeps its switches and, with AGC on, its gain moves to the gain after that block's frames |
| ReceiverPro.MpxReceiverPro.StopReceiver | mpx_receiver_pro.py:725-772 | both flags down, stream stopped and closed, socket closed, both dropped, the buffer emptied and the monitor reset |
| ReceiverPro.Shape | mpx_receiver_pro.py:562-564 | in MPX mode each frame keeps channel 0 only; otherwise the block is unchanged |
| ReceiverPro.Trim | mpx_receiver_pro.py:566-571 | the first `frames` frames when there are that many, the whole chunk otherwise |
| Multistream.AudioStream.constructor | multistream.py:8-14 | an empty queue, enabled, volume 1.0, with the given id and name |
| Multistream.AudioStream.AddAudio | multistream.py:16-19 | the stream becomes what `Delivered` says: the block queued (oldest evicted past 100) only while enabled |
| Multistream.AudioStream.GetAudio | multistream.py:21-25 | the oldest block, removed, or None on an empty queue; flag and volume unchanged |
| Multistream.AudioStream.Clear | multistream.py:27-29 | the queue emptied, flag and volume unchanged |
| Multistream.Delivered | multistream.py:16-19 | a disabled stream is unchanged; an enabled one ends its queue with the block; flag and volume never change |
| Multistream.ActiveBlocks | multistream.py:54-60 | no more blocks than streams |
| Multistream.ActiveBlocksSnoc | multistream.py:54-67 | each stream considered adds its volume-scaled head block exactly when it is enabled and non-empty |
| Multistream.ZeroGrid | multistream.py:51 | a frames × channels grid of zeros |
| Multistream.FirstMisfit | multistream.py:54-65 | the first stream in dictionary order whose head block is neither `channels` nor one column wide, where `mix` raises: every stream before it goes through and that one does not, or the end of the order when all go through |
| Multistream.FirstMisfitAt | multistream.py:54-65 | a position with every turn before it going through and a raising turn there is the first misfit |
| Multistream.ScaleFits | multistream.py:60 | scaling by the volume keeps the block's shape, so whether it fits does not change |
| Multistream.AddInto | multistream.py:62-65 | each output sample grows by the block's sample at that frame (the single sample of a one-column block on every channel, as numpy broadcasts it), and by nothing past the block's end |
| Multistream.AddRow | multistream.py:62-65 | one output frame keeps the channel count |
| Multistream.Accumulate | multistream.py:51-67 | the float output keeps the frames × channels shape |
| Multistream.AccumulateSnoc | multistream.py:54-67 | one more block accumulated is one more `AddInto` |
| Multistream.MixSumSnoc | multistream.py:54-67 | the reference sum over one block more adds that block's sample |
| Multistream.AccumulateIsSum | multistream.py:51-67 | the accumulated output at every sample is the plain sum of the taken blocks' samples |
| Multistream.Render | multistream.py:69-73 | the mixer output has the requested shape and int16 samples |
| Multistream.Finish | multistream.py:69-73 | averaging, clipping and the int16 conversion keep the shape and give int16 samples |
| Multistream.RenderSample | multistream.py:49-73 | each output sample is the sum of the taken samples, divided by their count when more than one, clipped to the int16 range and truncated |
| Multistream.RenderSilence | multistream.py:49-73 | with no active stream the mix is silence |
| Multistream.RenderSingle | multistream.py:49-73 | a single active stream passes through without averaging, clipped and truncated, and silence after its last frame |
| Multistream.RenderMono | multistream.py:62-65 | a single one-column block is broadcast: every channel of a frame carries its sample, clipped and truncated, and silence after its last frame |
| Multistream.AudioMixer.constructor | multistream.py:33-36 | no streams, the given channel count |
| Multistream.AudioMixer.AddStream | multistream.py:38-42 | a new id gets a fresh enabled empty stream at the end of the dictionary order; an existing id returns its stream and changes nothing |
| Multistream.AudioMixer.RemoveStream | multistream.py:44-47 | the id is gone from the streams and the order; unknown ids change nothing |
| Multistream.AudioMixer.SetStreamVolume | multistream.py:75-78 | the named stream's volume clamped into [0, 2]; nothing else changes; unknown ids are ignored |
| Multistream.AudioMixer.SetStreamEnabled | multistream.py:80-83 | the named stream's flag set; nothing else changes; unknown ids are ignored |
| Multistream.AudioMixer.GetStreams | multistream.py:85-87 | the streams in dictionary order |
| Multistream.AudioMixer.Mix | multistream.py:49-73 | the mix raises (None) exactly when some head block does not fit; every enabled non-empty stream up to and including the one that raises loses its head block, and the others keep their queues; without a raise the output is the rendering of the volume-scaled head blocks in dictionary order |
| Multistream.AudioMixer.MixAll | multistream.py:54-67 | the loop stops at the first raising turn, with the streams taken up to there, and otherwise leaves the float sum of every taken block |
| Multistream.AudioMixer.MixStart | multistream.py:51-52 | the loop starts from the zero grid and untouched streams |
| Multistream.AudioMixer.MixOutcome | multistream.py:54-73 | once the loop stops, the streams and the output are as `mix` promises |
| Multistream.AudioMixer.MixStep | multistream.py:54-67 | one loop turn goes through exactly when that stream's head fits, and keeps the mix invariant or records the raise |
| Multistream.AudioMixer.DeliveredAll | multistream.py:132-143 | once every target is handled, the streams are the delivery to all of them |
| Multistream.AudioMixer.DeliverStep | multistream.py:140-143 | one loop turn queues the block on the next target only, when it names a stream |
| Multistream.AudioMixer.DistinctAt | multistream.py:35 | different dictionary keys hold different streams |
| Multistream.AudioMixer.MixStream | multistream.py:55-67 | one stream's turn takes its volume-scaled head block exactly when it contributes, adds it when it fits, and raises otherwise |
| Multistream.Without | multistream.py:47 | the order without the id keeps every other id and stays duplicate-free |
| Multistream.WithoutAbsent | multistream.py:46 | removing an absent id leaves the order unchanged |
| Multistream.NoDuplicatesAt | multistream.py:99-100 | two positions of a duplicate-free list hold different ids |
| Multistream.NoDuplicatesSnoc | multistream.py:99-100 | appending an id not yet listed keeps the list duplicate-free |
| Multistream.RemoveFirst | multistream.py:106 | `list.remove` shortens the list by one and adds nothing |
| Multistream.RemoveFirstExact | multistream.py:106 | on a duplicate-free list `remove` deletes exactly that id |
| Multistream.AudioRouter.constructor | multistream.py:91-93 | no routes |
| Multistream.AudioRouter.AddRoute | multistream.py:95-100 | the destination appended to the source's list unless already there; a new source gets a one-element list |
| Multistream.AudioRouter.RemoveRoute | multistream.py:102-108 | the destination removed; a source left without destinations is dropped; anything else changes nothing |
| Multistream.AudioRouter.GetDestinations | multistream.py:110-112 | the source's list, empty exactly for an unknown source, without duplicates |
| Multistream.AudioRouter.ClearRoutes | multistream.py:114-120 | one source's routes dropped, or all of them for a missing or empty source |
| Multistream.Targets | multistream.py:133-143 | the routed destinations, or the source itself when it has none |
| Multistream.MultiStreamManager.constructor | multistream.py:124-127 | a two-channel mixer without streams and a router without routes |
| Multistream.MultiStreamManager.CreateStream | multistream.py:129-130 | `add_stream` on the mixer |
| Multistream.MultiStreamManager.RouteAudio | multistream.py:132-143 | the block is queued on every target that names a stream, and every other stream is unchanged |
| Multistream.MultiStreamManager.GetMixedAudio | multistream.py:145-146 | the mixer's `mix`, with the same raise, the same streams taken and the same output |
| Common.Pow2 | electron-app/src/python/backend.py:120 | powers of two are positive |
| Backend.Pow2Add | electron-app/src/python/backend.py:120 | 2^(a+b) = 2^a · 2^b |
| Backend.MaskValue | electron-app/src/python/backend.py:120 | the shifted mask exists exactly for prefix lengths up to 32; above that the negative shift count raises |
| Backend.MaskTopBits | electron-app/src/python/backend.py:120 | a prefix length from 0 to 32 gives the 32-bit value with exactly the top prefix-length bits set |
| Backend.MaskOfNegative | electron-app/src/python/backend.py:120 | a negative prefix length shifts every bit out and gives 0 |
| Backend.Octets | electron-app/src/python/backend.py:121 | four octets, each below 256 |
| Backend.Decimal | electron-app/src/python/backend.py:121 | the decimal text of a number is a non-empty run of digits |
| Backend.CidrToNetmask | electron-app/src/python/backend.py:119-121 | a netmask text exactly for prefix lengths up to 32 |
| Backend.NetmaskOctets | electron-app/src/python/backend.py:119-121 | the netmask text is the dotted quad of four octets whose big-endian word has exactly the top prefix-length bits set, or is 0 for a negative prefix length |
| Backend.PopcountSplit | electron-app/src/python/backend.py:178 | the set bits of a word are those of its high part and of its low bits |
| Backend.PopcountOnes | electron-app/src/python/backend.py:178 | 2^m − 1 has m set bits |
| Backend.SplitOn | electron-app/src/python/backend.py:178 | `str.split` yields at least one part |
| Backend.ParseInt | electron-app/src/python/backend.py:178 | `int` succeeds only on non-empty text |
| Backend.SplitWithout | electron-app/src/python/backend.py:178 | a run of digits splits into itself |
| Backend.SplitBefore | electron-app/src/python/backend.py:178 | digits, the separator, and the rest split into the digits followed by the rest's parts |
| Backend.ParseDecimal | electron-app/src/python/backend.py:178 | `int` reads the decimal text of a number back as that number |
| Backend.DigitsDecimal | electron-app/src/python/backend.py:178 | the value of a number's decimal digits is the number |
| Backend.SplitDotted | electron-app/src/python/backend.py:178 | a dotted quad splits into the four decimal texts |
| Backend.CountDotted | electron-app/src/python/backend.py:177-178 | the bit count of a dotted quad is the number of set bits in the 32-bit word its octets make |
| Backend.CountOctetTexts | electron-app/src/python/backend.py:178 | the bit count over four decimal texts is the sum of the octets' set bits |
| Backend.CountDecimal | electron-app/src/python/backend.py:178 | a decimal part adds its number's set bits to the count |
| Backend.NetmaskToCidr | electron-app/src/python/backend.py:177-178 | a count exists exactly when every dotted part is an integer, as `int()` raises otherwise |
| Backend.CountBits | electron-app/src/python/backend.py:178 | the total exists exactly when every part is an integer |
| Backend.PopcountBounds | electron-app/src/python/backend.py:178 | `bin(n).count('1')` is 0 exactly for 0 and never exceeds `n` |
| Backend.CountCons | electron-app/src/python/backend.py:178 | a part that parses adds its value's set bits to the count |
| Backend.PopcountOctets | electron-app/src/python/backend.py:178 | the set bits of a big-endian word are the sum over its four octets |
| Backend.PopcountByte | electron-app/src/python/backend.py:178 | appending a byte adds its set bits |
| Backend.NetmaskRoundTrip | electron-app/src/python/backend.py:119-178 | for every prefix length from 0 to 32, counting the bits of its netmask gives the prefix length back |
| Backend.MaskPopcount | electron-app/src/python/backend.py:178 | the mask with the top prefix-length bits set has that many set bits |
| Backend.MaskFactor | electron-app/src/python/backend.py:120 | the mask with the top c bits set is (2^c − 1) · 2^(32−c) |
| Backend.WordsBytes | electron-app/src/python/backend.py:194 | four bytes per float32 sample |
| Backend.Group | electron-app/src/python/backend.py:249 | grouping bytes by four and writing them out again gives the bytes back |
| Backend.BytesWords | electron-app/src/python/backend.py:249 | `np.frombuffer` succeeds exactly on whole samples, and the samples it reads write back to the same bytes |
| Backend.WordsRoundTrip | electron-app/src/python/backend.py:249 | reading the bytes of some samples gives those samples back |
| Backend.SenderPacket | electron-app/src/python/backend.py:193-194 | a packet exactly for sequence numbers that fit 32 bits |
| Backend.ParsePacket | electron-app/src/python/backend.py:243-250 | too short exactly below 4 bytes; a parsed packet holds a block of the configured width whose samples fill the rest of the packet |
| Backend.ParseSenderPacket | electron-app/src/python/backend.py:193-250 | a sender packet is 4 bytes plus 4 per sample and parses back to its sequence number and block |
| Backend.RecvNext | electron-app/src/python/backend.py:239 | an exhausted connection reads empty; any other read consumes input |
| Backend.StreamBlocks | electron-app/src/python/backend.py:237-257 | every block appended has the configured width |
| Backend.StreamUnfold | electron-app/src/python/backend.py:237-257 | one read of the loop: stop on an empty or failing read or a rejected payload, skip a short read, append a packet's block |
| Backend.StreamReadsPackets | electron-app/src/python/backend.py:235-257 | a connection carrying the sender's packets for blocks of at most `buffer_size` frames, one per read, delivers exactly those blocks |
| Backend.StreamReadsWithin | electron-app/src/python/backend.py:237-257 | the same for any read size every packet fits |
| Backend.StreamCons | electron-app/src/python/backend.py:237-257 | the first packet is read as its block and the loop goes on with the rest |
| Backend.ExpectedSize | electron-app/src/python/backend.py:235 | the read size is a whole number of four-byte words and, for non-negative settings, at least the four-byte header |
| Backend.BlockFits | electron-app/src/python/backend.py:235 | a block of at most `buffer_size` frames fits one read |
| Backend.StreamHead | electron-app/src/python/backend.py:239-253 | a whole packet at the head of the connection is read as its block |
| Backend.ChannelCount | electron-app/src/python/backend.py:276-281 | 1 exactly for mono, 2 exactly for stereo, 8 for any other mode |
| Backend.SendBlock | electron-app/src/python/backend.py:186-191 | mono sends each frame's mean as a one-sample frame; stereo keeps the first two samples of each frame; any other mode sends the input unchanged; the frame count is kept |
| Backend.SentBlockReadsBack | electron-app/src/python/backend.py:186-250 | with both ends in the same channel mode, the receiver parses a sender packet as its sequence number and the block that was sent |
| Backend.Broadcast | electron-app/src/python/backend.py:214 | the copy succeeds exactly when there are no frames or numpy can broadcast the block's leading frames and columns onto the output; the result fills the output |
| Backend.BroadcastExact | electron-app/src/python/backend.py:214 | a block of the output's width with enough frames fills it with its first frames |
| Backend.BroadcastOneFrame | electron-app/src/python/backend.py:214 | a one-frame block is repeated in every frame |
| Backend.BroadcastShort | electron-app/src/python/backend.py:214 | a block of several frames but fewer than the output raises |
| Backend.FitWhole | electron-app/src/python/backend.py:214 | filling an output with a grid of its own shape gives the grid |
| Backend.Played | electron-app/src/python/backend.py:210-219 | the output keeps its shape whatever the block |
| Backend.UniformAppend | electron-app/src/python/backend.py:253 | the 100-block buffer holds only rectangular blocks after an append |
| Backend.Get | electron-app/src/python/backend.py:273-274 | `dict.get`: the value when present, the default otherwise |
| Backend.Configured | electron-app/src/python/backend.py:272-281 | the channel count follows the channel mode whatever the request said; the other settings come from the request where given |
| Backend.AudioBackend.constructor | electron-app/src/python/backend.py:14-33 | stopped, sender mode, stereo, empty buffer, sequence 0 and the default settings |
| Backend.AudioBackend.AudioCallbackSender | electron-app/src/python/backend.py:181-204 | with a client socket, the packet is sent and the sequence number advances exactly when packing and sending succeed; without one, nothing changes |
| Backend.AudioBackend.AudioCallbackReceiver | electron-app/src/python/backend.py:206-219 | silence on an empty buffer; otherwise the oldest block is popped and copied into the output, or silence where the copy raises |
| Backend.AudioBackend.ReceivePass | electron-app/src/python/backend.py:238-257 | one read: the loop continues exactly on a non-empty read whose payload numpy accepts; only a packet's block is appended |
| Backend.AudioBackend.ReceiveLoop | electron-app/src/python/backend.py:235-259 | while running, the buffer ends as if every block the connection delivers had been appended in order |
| Backend.AudioBackend.ReceiveStep | electron-app/src/python/backend.py:237-257 | one pass keeps the loop invariant and consumes input, or the loop is done |
| Backend.AudioBackend.ReceiveThread | electron-app/src/python/backend.py:221-265 | the listening socket is closed in any case; the buffer gains the connection's blocks only while running with a connection; settings and sequence number unchanged |
| Backend.AudioBackend.StartStream | electron-app/src/python/backend.py:267-319 | nothing while running; otherwise the request merged, mode and channel mode taken with their defaults, and the stream running exactly when the device opens and, in sender mode, the connection succeeds; a failure leaves no stream or socket |
| Backend.AudioBackend.StopStream | electron-app/src/python/backend.py:321-337 | the flag down, the stream stopped and closed, both sockets closed, all dropped; buffer, settings and sequence number kept |

## Left out

- The cryptographic and hash primitives (MD5, the AES block function, PBKDF2-HMAC-SHA256, SHA-256 hex digests) are function parameters. The CFB mode, the IV handling, the key-derivation constants and the framing around them are modelled and proved for any such function.
- The numeric primitives `sqrt`, `log10`, `exp`, the Hann window and `np.fft.rfft` are function parameters. The AGC attack and release coefficients, which come from `exp`, are parameters in (0, 1).
- Float32 rounding: samples are exact reals. The mono mean of the backend's sender callback is a parameter, and float32 samples on the backend's wire are opaque four-byte words.
- `astype(np.int16)` of an out-of-range float is modelled as truncation followed by 16-bit wrap-around, as on the common platforms.
- Threads, locks, `time.sleep`: the model is sequential. Only `stop_*` lowers the running flags, so the receive loops run with their flags constant. A reconnect wait is counted, not timed.
- Socket creation, binding, listening and connecting are given as outcomes of arrival scripts. A `sendall` either delivers the whole packet or nothing; partial sends before an exception are not modelled.
- The UDP sockets' connect and bind failures, and the error paths of `start_sender`/`start_receiver` that parse the Tk fields (`int()` of the device, port and sizes), are not modelled.
- Backend.AudioBackend.ReceiveThread: a failure to create, bind or accept the socket is one absent connection. The error log lines are not modelled.
- Backend.AudioBackend.StartStream: the receive thread it launches in receiver mode is modelled separately as `ReceiveThread`, and the thread scheduling in between is not modelled.
- Backend.AudioBackend.ReceiveLoop: each `recv` is taken as one whole packet, as the source does. Packets split or merged by TCP therefore parse as the source would parse them, not as the sender meant them.
- Backend.ParseInt: Python's `int()` also accepts surrounding whitespace and underscores between digits. The model accepts only an optional sign and decimal digits, so `Backend.NetmaskToCidr` rejects such text where Python would count it.
- `process_command` and `main` of the backend (the JSON command loop on standard input and output), `get_network_info`, `configure_network` and the `get_audio_devices` functions: they shell out to system tools or query the sound devices.
- `update_vu_from_audio` in both pro programs: the clock-gated level update (at most once every 0.1 s, `calculate_db_fs` then `PeakHolder.update`) is not modelled as a method; `AudioUtils.CalculateDbFs` and `AudioProcessing.PeakHolder.Update`, which it calls, are.
- The Tk and Electron user interfaces, VU meter drawing, presets, the recorder, the logger, the alert manager, the Supabase client, the configuration manager and the icon generator are not part of this model.
- Authentication is modelled as `AuthenticationManager` on its own. The programs build one from the secret field but never call it on the wire, so no packet carries a token.
- Multistream.AudioMixer.Mix: blocks are two-dimensional frames × columns; a one-dimensional array, which numpy would broadcast along the channel axis, is not modelled, and a block with no frames fits any output because it has no width to compare.
- `FFTAnalyzer.get_spectrum` is modelled only through its fullness guard and the in-band maximum selection that `get_pilot_tone_level` and `get_subcarrier_level` perform; the spectrum values come from the abstract FFT.
