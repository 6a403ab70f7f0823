# PipeWire buffer handoff, device and session policy core, in Dafny

This project models the part of PipeWire in which
linked media nodes hand buffers to each other, and the bookkeeping and
policy code around it:

- **Audio mixer node** (`audiomixer.dfy`, module `AudioMixer`). Each port
  has a table of up to 64 buffers, an "outstanding" flag per buffer and a
  FIFO queue. `process_input` and `process_output` run the HAVE_BUFFER /
  NEED_BUFFER handshake over each port's one-slot I/O area. Mixing copies
  the first input and adds the rest with int16 saturation. The class
  `Mixer` holds the ports; pure functions specify each step.
- **A2DP source node** (`a2dp_source.dfy`, module `A2dpSource`). This is
  the buffer side of the Bluetooth audio source: the free and ready
  lists, recycling, the process handoff, the start/stop commands and the
  format lifecycle. The class is `Source`. The SBC decoder is a function
  parameter.
- **ALSA driver data path**. This is the integer part of `alsa-utils.c`:
  - `alsa_map.dfy` (`AlsaMap`): the sample-format table and the
    channel-map sanitiser;
  - `alsa_pcm.dfy` (`AlsaPcm`): pure functions over a snapshot of the
    driver state and an abstract PCM ring. They cover delay, the
    early-wakeup guards, xrun recovery, the playback copy loop with its
    wrap-around split, silence accounting, capture buffer claiming,
    resync, start, pause and reslave;
  - `alsa_state.dfy` (`AlsaState`): the class `State`, whose methods
    update the driver state in place and are proved against those
    functions.
- **Bluetooth device object** (`bluez5_device.dfy`, module
  `Bluez5Device`). For each transport whose profile the device has
  connected, it emits the node objects, each under the next object id.
- **Endpoint module**:
  - `spa_pod.dfy` (`SpaPod`): pods as tagged values, with the pod
    parser's rules;
  - `endpoint_protocol.dfy` (`EndpointProtocol`): the native-protocol
    layouts of endpoint info and of every endpoint and client-endpoint
    message, each with its round trip;
  - `endpoint_impl.dfy` (`EndpointImpl`): the server-side endpoint.
    This covers param enumeration, subscriptions, full and incremental
    param updates, info updates and binding.
- **Example session manager**:
  - `media_policy.dfy` (`MediaPolicy`): its decisions as pure functions.
    These are the role table, media-class classification, port flags,
    the category and role defaults, session choice, port selection for
    links and the volume/mute/zone command grammar;
  - `media_session.dfy` (`MediaSession`): the class `SessionManager`,
    which holds the role tables, the bound objects, the nodes and the
    sessions.
- `spa.dfy` (`Spa`) holds the types the modules share.

The model has no I/O. Each request a node or the session manager sends
is appended to a list of effects or of sent messages. Each reply from a
device, a transport or the server is a parameter.

## Model

| member | source | states |
|---|---|---|
| SpaPod.FindProp | src/modules/module-endpoint/endpoint-impl.c:322-327 | spa_pod_object_find_prop finds a property exactly when the object has one with the key, and returns the value of the first one |
| SpaPod.AsInt32 | src/modules/module-endpoint/protocol-native.c:44-47 | a uint32 written as an Int is negative exactly when its top bit is set |
| SpaPod.Uint32RoundTrip | src/modules/module-endpoint/protocol-native.c:44-74 | a uint32 written as an Int and read back into a uint32 is unchanged |
| SpaPod.ParsePod | src/modules/module-endpoint/protocol-native.c:172 | reading a Pod field gives NULL exactly for a None pod |
| SpaPod.ParseObject | src/modules/module-endpoint/protocol-native.c:378-380 | reading a PodObject field succeeds exactly on an object or a None pod, and then gives the same as reading a Pod field |
| SpaPod.PodFieldRoundTrip | src/modules/module-endpoint/protocol-native.c:344-380 | a pod written as a field reads back as itself, with NULL and a None pod both read as NULL |
| AudioMixer.FreshPort | spa/plugins/audiomixer/audiomixer.c:824-861 | a zero-initialised port holds nothing queued and nothing outstanding, so it satisfies the input-port invariant |
| AudioMixer.ClearBuffers | spa/plugins/audiomixer/audiomixer.c:318-326 | clear_buffers (corrected, see Findings): no buffer bound and the queue empty; table, outstanding flags and I/O slot kept; the port stays valid and keeps its byte accounting |
| AudioMixer.Bound | spa/plugins/audiomixer/audiomixer.c:471-489 | after the loop wrote entries 0..k-1: each holds the given buffer, input entries are outstanding, output entries are appended to the queue in index order; the rest of the table is unchanged |
| AudioMixer.BoundOwnership | spa/plugins/audiomixer/audiomixer.c:471-489 | binding a cleared port keeps every queued entry owned once: the output queue is exactly 0..k-1 and the input queue stays empty |
| AudioMixer.FailedBindOwnership | spa/plugins/audiomixer/audiomixer.c:475-486 | the entry written just before the memory check fails is not queued, so the ownership rules still hold |
| AudioMixer.BoundStep | spa/plugins/audiomixer/audiomixer.c:475-488 | one iteration writes entry k, its outstanding flag and (for output) appends k to the queue |
| AudioMixer.FirstUnmapped | spa/plugins/audiomixer/audiomixer.c:480-482 | the index returned is the first buffer whose memory is not mapped MemPtr/MemFd/DmaBuf: all earlier ones are usable, that one is not |
| AudioMixer.BindBuffers | spa/plugins/audiomixer/audiomixer.c:469-492 | the binding loop ends with OK, the full binding and n_buffers = count, or with ERROR at an unusable buffer and n_buffers unchanged; a cleared port stays valid |
| AudioMixer.UseBuffersOn | spa/plugins/audiomixer/audiomixer.c:462-492 | NO_FORMAT leaves the port unchanged, and so does INVALID_ARGUMENTS for more than 64 buffers (the corrected check, see Findings); on OK every table entry is the given buffer, every buffer is queued or outstanding exactly once, and the output queue is 0..n-1 in order; on ERROR no buffer is bound and some buffer has unusable memory; the port stays valid |
| AudioMixer.UseBuffersAsWrittenQueuesTwice | spa/plugins/audiomixer/audiomixer.c:318-326 | with clear_buffers as written, a use_buffers that fails on its second buffer followed by a successful one leaves buffer 0 queued twice |
| AudioMixer.ClearBuffersAsWritten | spa/plugins/audiomixer/audiomixer.c:318-326 | as written, clearing a port with no buffers bound leaves it as it was; with buffers bound, or an empty queue, it agrees with the corrected clear |
| AudioMixer.UseBuffersAsWritten | spa/plugins/audiomixer/audiomixer.c:448-493 | as written, use_buffers agrees with the corrected one on a valid port that has buffers bound or an empty queue |
| AudioMixer.StoredSlotsAsWritten | spa/plugins/audiomixer/audiomixer.c:471-476 | as written, the loop stores into table entries 0, 1, ... up to and including the first buffer with unusable memory; it stores past the 64-entry table exactly when more than 64 buffers come with the first 64 usable |
| AudioMixer.UseBuffersOverrunAsWritten | spa/plugins/audiomixer/audiomixer.c:448-492 | as written, 65 usable buffers on an output port with a format make the loop store into entry 64 of a 64-entry table, where the corrected use_buffers answers INVALID_ARGUMENTS and leaves the port unchanged |
| AudioMixer.Recycle | spa/plugins/audiomixer/audiomixer.c:529-542 | an outstanding buffer is appended to the queue tail and stops being outstanding; any other id below 64 leaves the port unchanged; validity and accounting are kept (an id of 64 or more, read past the table as written, is ignored: see Findings) |
| AudioMixer.TakeOffer | spa/plugins/audiomixer/audiomixer.c:681-704 | an offer is taken only when the port has no queued bytes; an offered buffer that is not outstanding, or an id of 64 or more (read past the table as written, see Findings), turns the slot to INVALID_BUFFER_ID and queues nothing; otherwise it is queued, the slot becomes (INVALID, OK) and queued_bytes grows by exactly its chunk size |
| AudioMixer.RecycleAsWritten | spa/plugins/audiomixer/audiomixer.c:529-542 | as written, recycling reads past the 64-entry table exactly for an id of 64 or more, and otherwise is Recycle |
| AudioMixer.TakeOfferAsWritten | spa/plugins/audiomixer/audiomixer.c:681-704 | as written, taking an offer reads past the table exactly for an offered id of 64 or more, and otherwise is TakeOffer |
| AudioMixer.OutOfRangeIdAsWritten | spa/plugins/audiomixer/audiomixer.c:529-542 | an id of 64 or more is read past the table by recycle_buffer and by the offer path, where the model ignores it on recycling and answers INVALID_BUFFER_ID to the offer |
| AudioMixer.TakeOffers | spa/plugins/audiomixer/audiomixer.c:677-707 | every input port takes its own offer, independently of the others |
| AudioMixer.MinPositiveQueuedIsSmallest | spa/plugins/audiomixer/audiomixer.c:705-709 | the value is the smallest positive queued_bytes among the active ports, attained by one of them, and absent exactly when no active port has queued bytes |
| AudioMixer.MinActiveQueuedIsSmallest | spa/plugins/audiomixer/audiomixer.c:742-750 | the value is the smallest queued_bytes among the active ports (zero included), attained by one of them, and absent exactly when no port is active |
| AudioMixer.OutputMixesIffAllActiveHaveData | spa/plugins/audiomixer/audiomixer.c:742-771 | process_output mixes if and only if some input is active and every active input has queued bytes |
| AudioMixer.Consume | spa/plugins/audiomixer/audiomixer.c:577-609 | add_port_data's bookkeeping: it consumes min(outsize, bytes left in the head buffer); queued_bytes drops by exactly that; a fully consumed buffer leaves the queue, becomes outstanding, is returned through the slot's buffer_id and the offset resets to 0; a partly consumed one stays at the advanced offset |
| AudioMixer.ConsumeKeepsAccounted | spa/plugins/audiomixer/audiomixer.c:596-609 | consuming from the head buffer keeps every buffer either queued or outstanding |
| AudioMixer.MixStep | spa/plugins/audiomixer/audiomixer.c:639-650 | one iteration of mix_output's port loop touches only port i |
| AudioMixer.MixStepKeepsAccounted | spa/plugins/audiomixer/audiomixer.c:641-650 | one iteration keeps the ownership accounting of every port |
| AudioMixer.MixUpTo | spa/plugins/audiomixer/audiomixer.c:638-651 | the loop leaves the ports it has not reached unchanged and keeps every port's n_buffers |
| AudioMixer.MixKeepsAccountedAt | spa/plugins/audiomixer/audiomixer.c:638-651 | mixing keeps port i's ownership accounting |
| AudioMixer.MixKeepsAccounted | spa/plugins/audiomixer/audiomixer.c:638-651 | mixing keeps the ownership accounting of every input port |
| AudioMixer.MixStepSample | spa/plugins/audiomixer/audiomixer.c:584-594 | a port with enough data adds one layer: layer 0 copies its sample j, later layers add it with int16 clamping; an inactive or underrun port adds nothing |
| AudioMixer.LayerStep | spa/plugins/audiomixer/audiomixer.c:588-593 | a contributing port extends the saturating sum of the layers before it by its own sample |
| AudioMixer.LayerMix | spa/plugins/audiomixer/audiomixer.c:584-594 | one layer: the samples past count are kept; layer 0 copies the input samples; later layers add them, exactly when the sum fits in int16 and clamped within int16 otherwise |
| AudioMixer.MixedSampleStep | spa/plugins/audiomixer/audiomixer.c:638-651 | the induction step of MixedSampleIsSaturatingSum: port k-1 adds one layer or nothing |
| AudioMixer.MixedSampleIsSaturatingSum | spa/plugins/audiomixer/audiomixer.c:638-651 | after the port loop, output sample j is the first contributing port's sample followed by the others added with clamping, in port order, and the layer count is the number of contributing ports |
| AudioMixer.SaturatingSumInRange | spa/plugins/audiomixer/audiomixer.c:592 | every mixed sample stays in [INT16_MIN, INT16_MAX] when the first layer does |
| AudioMixer.SaturationIsPerLayer | spa/plugins/audiomixer/audiomixer.c:592 | for every sample a and layer b > 0 that takes a past INT16_MAX, mixing b then -b gives INT16_MAX - b, below a, where clamping the exact sum or mixing -b first gives a: clamping after each layer makes the mix depend on layer order |
| AudioMixer.DequeueHeadKeepsOwnership | spa/plugins/audiomixer/audiomixer.c:626-628 | taking the head of a queue and flagging it outstanding keeps the ownership rules and the accounting |
| AudioMixer.MixOutputSpec | spa/plugins/audiomixer/audiomixer.c:612-656 | an empty output queue gives OUT_OF_BUFFERS and changes nothing; otherwise the head output buffer leaves the queue, becomes outstanding, gets chunk (0, min(n, maxsize), 0) and goes to the slot with HAVE_BUFFER; validity and accounting of all ports are kept; the new inputs and the buffer's samples are those of the port loop MixUpTo over min(n, maxsize) bytes |
| AudioMixer.MixOutputSamples | spa/plugins/audiomixer/audiomixer.c:612-656 | each sample mix_output writes into the head output buffer is the saturating int16 sum, in port order, of what the active inputs contribute at that position, or the old sample when none does, given that each contributing input holds the mixed length |
| AudioMixer.RequestInput | spa/plugins/audiomixer/audiomixer.c:759-767 | answering an input with NEED_BUFFER or OK keeps its invariant and accounting |
| AudioMixer.RequestInputs | spa/plugins/audiomixer/audiomixer.c:755-770 | every input port is answered on its own |
| AudioMixer.ProcessInputSpec | spa/plugins/audiomixer/audiomixer.c:658-715 | no output slot gives ERROR and a slot still holding HAVE_BUFFER gives HAVE_BUFFER, both with nothing changed; otherwise, when no active input has data after taking the offers, the inputs are those of TakeOffers and the output slot and the result become NEED_BUFFER; every port stays valid and the number of inputs is kept |
| AudioMixer.RecycleSlot | spa/plugins/audiomixer/audiomixer.c:737-740 | the slot is left naming no buffer (ID_INVALID); a buffer it named that is outstanding goes back to the tail of the output queue and stops being outstanding, anything else leaves queue and flags as they were; the table and n_buffers are kept and the port stays valid and accounted |
| AudioMixer.ProcessOutputSpec | spa/plugins/audiomixer/audiomixer.c:717-773 | no output slot gives ERROR and a slot still holding HAVE_BUFFER gives HAVE_BUFFER, both with nothing changed; every port stays valid and the number of inputs is kept (the mix and request branches: ProcessOutputMixes, ProcessOutputOutOfBuffers, ProcessOutputBackpressure) |
| AudioMixer.ProcessOutputMixes | spa/plugins/audiomixer/audiomixer.c:736-752 | when every active input has data queued and the output queue is non-empty after recycling the slot, the head output buffer leaves the queue, becomes outstanding and is published with HAVE_BUFFER, and its chunk covers the smallest amount queued on an active input, capped by its maxsize |
| AudioMixer.ProcessOutputOutOfBuffers | spa/plugins/audiomixer/audiomixer.c:736-752 | when every active input has data queued but the output queue is empty after recycling the slot, the inputs are unchanged and the slot and the call report OUT_OF_BUFFERS |
| AudioMixer.ProcessInputOutputLength | spa/plugins/audiomixer/audiomixer.c:705-713 | when some input has queued data, process_input mixes min(smallest positive queued_bytes after taking offers, output maxsize) bytes and hands the output buffer over with HAVE_BUFFER |
| AudioMixer.ProcessOutputBackpressure | spa/plugins/audiomixer/audiomixer.c:751-771 | when an active input has nothing queued, no output buffer is taken; each empty active input gets NEED_BUFFER and the output's range, the others get OK |
| AudioMixer.Mixer.constructor | spa/plugins/audiomixer/audiomixer.c:824-861 | every port starts unused; the output port can use buffers and takes no references; not started and no ports counted |
| AudioMixer.Mixer.SendCommand | spa/plugins/audiomixer/audiomixer.c:135-152 | Start sets started, Pause clears it, any other command is NOT_IMPLEMENTED and changes nothing |
| AudioMixer.Mixer.AddPort | spa/plugins/audiomixer/audiomixer.c:218-236 | a free input port gets an empty queue and its flags and port_count grows by one; anything else is INVALID_PORT with nothing changed |
| AudioMixer.Mixer.RemovePort | spa/plugins/audiomixer/audiomixer.c:239-258 | an input port in use loses its slot, port_count drops by one and port_queued drops when the slot held a non-zero buffer id; anything else is INVALID_PORT |
| AudioMixer.Mixer.SetIo | spa/plugins/audiomixer/audiomixer.c:508-527 | a valid port number stores the slot and nothing else changes; otherwise INVALID_PORT |
| AudioMixer.Mixer.SetFormat | spa/plugins/audiomixer/audiomixer.c:329-366 | a port that does not exist is INVALID_PORT; NULL drops the port's format and clears its buffers; a format that is not parsable audio/raw is INVALID_MEDIA_TYPE with nothing changed; an accepted one becomes the node's format and the port has a format |
| AudioMixer.Mixer.GetFormat | spa/plugins/audiomixer/audiomixer.c:369-404 | INVALID_PORT, NO_FORMAT, or OK with the node's format |
| AudioMixer.Mixer.UseBuffers | spa/plugins/audiomixer/audiomixer.c:448-493 | INVALID_PORT for a port that does not exist; otherwise the port becomes UseBuffersOn of the old port and the result is its status, so more than 64 buffers give INVALID_ARGUMENTS with the port unchanged |
| AudioMixer.Mixer.BindTable | spa/plugins/audiomixer/audiomixer.c:471-492 | the binding loop computes BindBuffers |
| AudioMixer.Mixer.ReuseBuffer | spa/plugins/audiomixer/audiomixer.c:544-558 | port 0 recycles the buffer and still answers NOT_IMPLEMENTED; any other port is INVALID_PORT |
| AudioMixer.Mixer.AddPortData | spa/plugins/audiomixer/audiomixer.c:570-610 | the port becomes Consume of the old port and the output gets the consumed samples as one layer |
| AudioMixer.Mixer.ConsumeHead | spa/plugins/audiomixer/audiomixer.c:577-609 | computes Consume |
| AudioMixer.Mixer.MixLayer | spa/plugins/audiomixer/audiomixer.c:584-594 | the sample loop computes LayerMix: a copy for layer 0, clamped additions otherwise |
| AudioMixer.Mixer.MixInputs | spa/plugins/audiomixer/audiomixer.c:638-651 | the port loop computes MixUpTo over all 128 inputs |
| AudioMixer.Mixer.MixPort | spa/plugins/audiomixer/audiomixer.c:639-650 | one iteration computes MixStep: an active port is mixed in, or zeroed when its queue is empty |
| AudioMixer.Mixer.MixOutput | spa/plugins/audiomixer/audiomixer.c:612-656 | the new ports and status are MixOutputSpec of the old ports |
| AudioMixer.Mixer.TakePortOffer | spa/plugins/audiomixer/audiomixer.c:681-704 | the port becomes TakeOffer of the old port, and the refusal is reported exactly when the offered buffer was not outstanding |
| AudioMixer.Mixer.TakeInputOffers | spa/plugins/audiomixer/audiomixer.c:677-707 | every input takes its offer and the smallest positive amount then queued is returned |
| AudioMixer.Mixer.ProcessInput | spa/plugins/audiomixer/audiomixer.c:658-715 | the new ports and status are ProcessInputSpec of the old ports |
| AudioMixer.Mixer.MinQueued | spa/plugins/audiomixer/audiomixer.c:742-750 | returns the smallest queued amount of an active input, with nothing changed |
| AudioMixer.Mixer.RequestAllInputs | spa/plugins/audiomixer/audiomixer.c:755-770 | every input port becomes RequestInput of itself with the output's range |
| AudioMixer.Mixer.ProcessOutput | spa/plugins/audiomixer/audiomixer.c:717-773 | the new ports and status are ProcessOutputSpec of the old ports, so the call returns at once on a missing slot or one holding HAVE_BUFFER, otherwise recycles the slot and mixes the smallest queued amount (ProcessOutputMixes), reports OUT_OF_BUFFERS (ProcessOutputOutOfBuffers) or asks the empty inputs for data (ProcessOutputBackpressure) |
| A2dpSource.ResetBuffers | spa/plugins/bluez5/a2dp-source.c:238-250 | every bound buffer is in the free list, flagged outstanding, nothing is ready, and the ownership invariant holds |
| A2dpSource.Recycle | spa/plugins/bluez5/a2dp-source.c:823-832 | a buffer that is not outstanding is appended to the free list and flagged; an outstanding one leaves the state unchanged; the free list grows by one exactly when the buffer came back, and ownership is kept when the id is not waiting on the ready list (a ready id recycled would sit on both lists) |
| A2dpSource.ProcessSpec | spa/plugins/bluez5/a2dp-source.c:855-887 | no I/O slot is -EIO; a slot already holding a buffer returns HAVE_BUFFER unchanged; otherwise the slot's previous buffer is recycled and its id reset, and the result is OK exactly when nothing is ready, else the first ready buffer moves to the slot with HAVE_BUFFER; ownership is kept |
| A2dpSource.Fill | spa/plugins/bluez5/a2dp-source.c:280-292 | the corrected inner decode loop (see Findings): it consumes a suffix of the input and never grows the room; it stops with success when the input or the room runs out, and with failure exactly when the decoder returned 0 or less on non-empty input with room left |
| A2dpSource.HandOff | spa/plugins/bluez5/a2dp-source.c:302-312 | the head free buffer leaves the free list and is flagged not outstanding; it goes straight to an idle slot with HAVE_BUFFER, otherwise to the ready list |
| A2dpSource.HandOffKeepsOwned | spa/plugins/bluez5/a2dp-source.c:302-312 | handing a buffer off keeps ownership: a bound buffer is free exactly when outstanding, each list holds a buffer at most once and no ready buffer is free; a buffer id the slot still named is overwritten and is then in none of the lists (the peer holds it until it comes back through reuse_buffer) |
| A2dpSource.Stamped | spa/plugins/bluez5/a2dp-source.c:272-276 | stamping the header changes none of the lists, the slot or the buffer count |
| A2dpSource.Filled | spa/plugins/bluez5/a2dp-source.c:297-300 | writing the chunk changes none of the lists, the slot or the buffer count |
| A2dpSource.DecodeOne | spa/plugins/bluez5/a2dp-source.c:264-315 | one outer iteration keeps the shape and consumes input; when it goes on it has used up one free buffer |
| A2dpSource.DecodeOneSteps | spa/plugins/bluez5/a2dp-source.c:264-315 | a completed iteration hands off the head free buffer and adds its frames to sample_count modulo 2^32; a decoder error leaves the lists and the slot as they were; ready buffers only come from the free list |
| A2dpSource.DecodeOneKeepsOwned | spa/plugins/bluez5/a2dp-source.c:264-315 | one iteration keeps the ownership invariant |
| A2dpSource.DecodeSpec | spa/plugins/bluez5/a2dp-source.c:264-315 | the decode loop keeps the shape and the ownership invariant and never grows the free list |
| A2dpSource.DecodeOnlyTakesFreeBuffers | spa/plugins/bluez5/a2dp-source.c:264-315 | decoding a packet only removes buffers from the free list and only adds buffers that were free or already ready to the ready list |
| A2dpSource.PayloadSizeAsWritten | spa/plugins/bluez5/a2dp-source.c:254-262 | the unsigned subtraction of the RTP header size: the true payload size for a packet at least as long as the header, a huge value beyond the read buffer for a shorter one |
| A2dpSource.PayloadSize | spa/plugins/bluez5/a2dp-source.c:254-262 | the payload size is absent exactly for packets shorter than the header, and otherwise agrees with the as-written subtraction |
| A2dpSource.InnerStepAsWritten | spa/plugins/bluez5/a2dp-source.c:283-292 | as written, with the decoder result stored in the size_t `decoded`, the inner loop returns exactly on a zero result; a positive result within the input shrinks src_size by it |
| A2dpSource.DecoderErrorAsWrittenContinues | spa/plugins/bluez5/a2dp-source.c:283-292 | as written, a negative decoder result passes the `decoded <= 0` test and src_size grows by the error code instead of the loop stopping |
| A2dpSource.DecodePacket | spa/plugins/bluez5/a2dp-source.c:252-316 | decoding a packet keeps the shape and the ownership invariant; a packet no longer than the header changes nothing |
| A2dpSource.BindBuffers | spa/plugins/bluez5/a2dp-source.c:751-771 | succeeds exactly when every buffer has mapped memory; on success the n buffers are bound, flagged outstanding and appended to the free list in order and n_buffers is n; on -EINVAL n_buffers is unchanged |
| A2dpSource.BindFrom | spa/plugins/bluez5/a2dp-source.c:751-768 | the tail of the binding loop from entry i, with the same success condition and the entries before i untouched |
| A2dpSource.Cleared | spa/plugins/bluez5/a2dp-source.c:663-672 | the corrected clear_buffers leaves no buffer bound and both lists empty, and keeps the table, the slot and the sample count |
| A2dpSource.ClearedAsWritten | spa/plugins/bluez5/a2dp-source.c:663-672 | as written, clear_buffers agrees with Cleared when buffers are bound and changes nothing when n_buffers is 0 |
| A2dpSource.UseBuffersAsWrittenFreesTwice | spa/plugins/bluez5/a2dp-source.c:663-672 | as written, a use_buffers that fails on its second buffer leaves buffer 0 free with n_buffers 0, and the next successful use_buffers puts buffer 0 on the free list twice |
| A2dpSource.UseBuffersFreesEachOnce | spa/plugins/bluez5/a2dp-source.c:751-771 | after the corrected clear, a successful binding leaves the free list exactly 0..n-1 with no id twice and nothing ready |
| A2dpSource.Source.constructor | spa/plugins/bluez5/a2dp-source.c:937-997 | default latency properties, no format, not started, no buffers, no I/O slot |
| A2dpSource.Source.SetParam | spa/plugins/bluez5/a2dp-source.c:207-236 | only the Props id is accepted (-ENOENT otherwise); a NULL param resets the defaults; each latency present in the object replaces the old one, absent ones are kept |
| A2dpSource.Source.DoStart | spa/plugins/bluez5/a2dp-source.c:353-393 | already started returns 0 with nothing changed; a failed transport acquire is returned with nothing changed; otherwise the buffers are reset, sample_count is 0 and the node is started |
| A2dpSource.Source.DoStop | spa/plugins/bluez5/a2dp-source.c:410-428 | the node ends stopped; the transport release result is returned only when it was started, 0 otherwise |
| A2dpSource.Source.SendCommand | spa/plugins/bluez5/a2dp-source.c:430-458 | Start without a format or buffers is -EIO; otherwise Start is DoStart; Pause stops the node and returns the release result only when it is negative; anything else is -ENOTSUP with nothing changed |
| A2dpSource.Source.ClearBuffers | spa/plugins/bluez5/a2dp-source.c:663-672 | the node is stopped and the state becomes Cleared: no buffer bound and both lists empty, also when none was bound (the corrected guard, see Findings) |
| A2dpSource.Source.SetFormat | spa/plugins/bluez5/a2dp-source.c:674-711 | any port but output 0 is -EINVAL; NULL drops the format and clears the buffers as Cleared; a format that is not raw audio is -EINVAL with nothing changed; an accepted one sets the format, frame size = channels * 2 and the port rate |
| A2dpSource.Source.SetIo | spa/plugins/bluez5/a2dp-source.c:799-821 | any port but output 0 is -EINVAL; only the Buffers id stores the slot, other ids are -ENOENT |
| A2dpSource.Source.UseBuffers | spa/plugins/bluez5/a2dp-source.c:731-772 | any port but output 0 is -EINVAL; no format is -EIO; otherwise the node stops and the new state and result are BindBuffers of the Cleared state, so on success the free list is exactly the new buffers, each once (UseBuffersFreesEachOnce) |
| A2dpSource.Source.BindTable | spa/plugins/bluez5/a2dp-source.c:751-769 | the binding loop computes BindBuffers |
| A2dpSource.Source.ReuseBuffer | spa/plugins/bluez5/a2dp-source.c:834-853 | port other than 0 is -EINVAL, no buffers is -EIO, an id out of range is -EINVAL; otherwise the state is Recycle of the old state |
| A2dpSource.Source.RecycleBuffer | spa/plugins/bluez5/a2dp-source.c:823-832 | the state becomes Recycle of the old state |
| A2dpSource.Source.Process | spa/plugins/bluez5/a2dp-source.c:855-887 | the new state and result are ProcessSpec of the old state |
| A2dpSource.Source.DecodeData | spa/plugins/bluez5/a2dp-source.c:252-316 | the new state is DecodePacket of the old state and the packet |
| A2dpSource.Source.FillHead | spa/plugins/bluez5/a2dp-source.c:270-295 | one outer iteration computes DecodeOne |
| A2dpSource.Source.Publish | spa/plugins/bluez5/a2dp-source.c:297-312 | the chunk is written and the buffer handed off: the state becomes HandOff(Filled(old state)) |
| A2dpSource.Source.DecodeInto | spa/plugins/bluez5/a2dp-source.c:282-295 | the inner decode loop computes Fill |
| AlsaPcm.SplitReadIsCircular | spa/plugins/alsa/alsa-utils.c:752-758 | the two memcpy calls that split a read at the end of a ring buffer together read n bytes circularly from offset offs |
| AlsaPcm.CopyInIsCircular | spa/plugins/alsa/alsa-utils.c:752-758 | copying into the mmap area with the split copy writes exactly the circular read of the source buffer at the destination offset |
| AlsaPcm.FramesFit | spa/plugins/alsa/alsa-utils.c:746-750 | the whole frames of an amount of bytes fit in it and leave less than one frame over |
| AlsaPcm.StepFramesFit | spa/plugins/alsa/alsa-utils.c:742-750 | the frames one copy step takes fit in the bytes left in the head ready buffer, and are positive unless the step finishes the buffer |
| AlsaPcm.CopyStepRule | spa/plugins/alsa/alsa-utils.c:729-779 | one iteration of the write loop, with the release test as written (ready_offset >= size) or corrected: written and the area offset grow by the frames copied and to_write shrinks by them |
| AlsaPcm.CopyStepKeepsInv | spa/plugins/alsa/alsa-utils.c:729-779 | one corrected iteration keeps the queue invariant and silence <= to_write, reduces silence by the frames copied (to 0 at most), releases the head buffer when it is finished or advances ready_offset by the bytes copied, and always makes progress |
| AlsaPcm.CopyStepCopies | spa/plugins/alsa/alsa-utils.c:739-758 | one iteration writes the circular read of the head buffer, starting at chunk offset + ready_offset, into the mmap area at off frames |
| AlsaPcm.CopyStepConsumes | spa/plugins/alsa/alsa-utils.c:742-771 | one iteration consumes at least the bytes it copied from the ready queue |
| AlsaPcm.ProgressTrans | spa/plugins/alsa/alsa-utils.c:729-779 | the progress relation of the write loop is transitive |
| AlsaPcm.CopyStepProgress | spa/plugins/alsa/alsa-utils.c:729-779 | each corrected iteration is a progress step: written + to_write is constant, off moves with written, the ready list loses only a prefix, the free list is unchanged and the ready bytes drop by at least the bytes written |
| AlsaPcm.CopyLoopContract | spa/plugins/alsa/alsa-utils.c:729-779 | the corrected write loop terminates in a progress state in which the ready list is empty or nothing is left to write |
| AlsaPcm.Release | spa/plugins/alsa/alsa-utils.c:762-770 | releasing the head ready buffer removes it from the ready list, flags it OUT, publishes its id in the io slot and resets ready_offset to 0; the free list and the table size are kept |
| AlsaPcm.ReleaseKeepsBuffers | spa/plugins/alsa/alsa-utils.c:762-770 | releasing touches only the head buffer's OUT flag, and the bytes queued drop by exactly its chunk size |
| AlsaPcm.AsWrittenStallsOnPartialFrame | spa/plugins/alsa/alsa-utils.c:746-762 | as written, a head buffer with less than one frame left is never released: the iteration copies nothing and changes nothing, so the loop does not end |
| AlsaPcm.AsWrittenReachesPartialFrame | spa/plugins/alsa/alsa-utils.c:742-771 | as written, a buffer whose chunk size is not a whole number of frames reaches that partial-frame state after its whole frames are copied |
| AlsaPcm.ReleaseTestsAgreeOnWholeFrames | spa/plugins/alsa/alsa-utils.c:746-771 | when the bytes left are whole frames, the as-written and corrected release tests give the same step |
| AlsaPcm.Commit | spa/plugins/alsa/alsa-utils.c:790-794 | committing changes only the ring |
| AlsaPcm.Finish | spa/plugins/alsa/alsa-utils.c:796-813 | the end of spa_alsa_write: sample_count and fill_level grow by the total written, and the device is started only when it was stopped and something was written |
| AlsaPcm.MapAndCopy | spa/plugins/alsa/alsa-utils.c:716-785 | one mmap round keeps the invariant, consumes only a prefix of the ready list, changes only the queue and the area, and when it wrote from a non-empty ready list the ready bytes strictly drop and the silence is used up |
| AlsaPcm.TransferRound | spa/plugins/alsa/alsa-utils.c:716-797 | one round of the again-loop keeps the invariant; a failed mmap_begin writes nothing and fails; a further round is taken only when the ready bytes strictly dropped |
| AlsaPcm.TransferFrom | spa/plugins/alsa/alsa-utils.c:715-813 | the whole again-loop keeps the invariant and consumes only a prefix of the ready list; sample_count and fill_level grow together, by the total written on success; the device is started only from stopped, after writing |
| AlsaPcm.TransferUnfolds | spa/plugins/alsa/alsa-utils.c:715-797 | the loop is one round followed by the rest of the loop |
| AlsaPcm.RemainingStep | spa/plugins/alsa/alsa-utils.c:715-797 | after a round that goes again, what the loop returns is what it returns after the next round, with that round's frames added to the total |
| AlsaPcm.Transfer | spa/plugins/alsa/alsa-utils.c:715-813 | the again-loop computes TransferFrom |
| AlsaPcm.Stop | spa/plugins/alsa/alsa-utils.c:790-813 | leaving the loop commits the totals as Finish does, or fails with the totals kept |
| AlsaPcm.IdleTransferWritesSilence | spa/plugins/alsa/alsa-utils.c:724-785 | with nothing ready and no errors, the write is min(silence, granted frames) frames of zeros at the mmap offset, appl and sample_count grow by that amount and the device is started when it wrote anything |
| AlsaPcm.SyncThreshold | spa/plugins/alsa/alsa-utils.c:684-685 | the threshold follows the position's quantum when there is one and is unchanged otherwise |
| AlsaPcm.WriteIdle | spa/plugins/alsa/alsa-utils.c:677-814 | spa_alsa_write keeps the invariant, only plays from the ready list and never lowers sample_count |
| AlsaPcm.XrunFrames | spa/plugins/alsa/alsa-utils.c:540-546 | the frames added after an xrun are zero only when the threshold is zero |
| AlsaPcm.Recover | spa/plugins/alsa/alsa-utils.c:518-571 | alsa_recover: a status error is returned with nothing changed; an xrun advances sample_count when the threshold is positive; a recover error is returned after the xrun accounting; after a successful recover the loop is reset, capture starts the device (alsa_started) or returns the start error, and playback clears alsa_started, writes two quanta of silence and returns 0 |
| AlsaPcm.XrunAccounted | spa/plugins/alsa/alsa-utils.c:530-552 | the xrun accounting changes only sample_count, never lowers it, and raises it for an xrun when the threshold is positive |
| AlsaPcm.RecoverPrimesPlayback | spa/plugins/alsa/alsa-utils.c:566-569 | a successful playback recovery with nothing ready writes min(2 * threshold, granted frames) frames of silence, accounts them in appl and sample_count, keeps the ready list and leaves the device started exactly when it wrote any |
| AlsaPcm.GetStatus | spa/plugins/alsa/alsa-utils.c:573-592 | get_status: a non-negative avail gives the delay (buffer_frames - avail for playback, avail for capture) with nothing changed; a negative one goes through Recover; a failure gives delay 0 |
| AlsaPcm.UpdateTime | spa/plugins/alsa/alsa-utils.c:594-675 | update_time: last_threshold becomes the threshold, the loop bandwidth is switched on (BW_MAX) if it was off and only moves forward BW_MAX, BW_MED, BW_MIN, one stage per elapsed period |
| AlsaPcm.DelayOf | spa/plugins/alsa/alsa-utils.c:585-590 | the delay (frames queued on playback, frames captured on capture) stays within [0, buffer_frames] when avail does |
| AlsaPcm.SettleReachesMin | spa/plugins/alsa/alsa-utils.c:635-641 | two elapsed periods bring the loop bandwidth to BW_MIN |
| AlsaPcm.Stage | spa/plugins/alsa/alsa-utils.c:617-641 | the loop bandwidth has four stages: off (after init_loop), BW_MAX, BW_MED and BW_MIN, the last |
| AlsaPcm.Settle | spa/plugins/alsa/alsa-utils.c:635-641 | elapsed periods only narrow the loop, never widen it, change neither the config nor the queue, and one of them reaches at least BW_MED |
| AlsaPcm.Shift | spa/plugins/alsa/alsa-utils.c:700-706 | a rewind or forward moves appl by k and the room by -k |
| AlsaPcm.PlaybackResync | spa/plugins/alsa/alsa-utils.c:694-708 | a delay over twice the threshold resets the loop; a resync moves appl so that the delay becomes the threshold; otherwise nothing changes; alsa_sync ends false |
| AlsaPcm.Write | spa/plugins/alsa/alsa-utils.c:677-814 | a stream that is not slaved and started is TransferFrom of the synced state; a slaved one ends with the loop running, alsa_sync cleared and last_threshold = threshold when the status is readable |
| AlsaPcm.SlavedWrite | spa/plugins/alsa/alsa-utils.c:687-813 | the slaved branch of spa_alsa_write keeps the invariant and, when the status is readable, leaves the loop running and synced |
| AlsaPcm.CaptureCopy | spa/plugins/alsa/alsa-utils.c:850-857 | the corrected capture copy: the first l0 bytes come from the area at src, the next n - l0 from the area's start, the rest of the buffer is unchanged |
| AlsaPcm.CaptureCopyAsWritten | spa/plugins/alsa/alsa-utils.c:850-857 | the capture copy as written, whose second memcpy writes at the buffer start |
| AlsaPcm.CaptureCopiesAgreeWithoutWrap | spa/plugins/alsa/alsa-utils.c:850-857 | when the capture does not wrap the two copies agree |
| AlsaPcm.AsWrittenCaptureKeepsStaleBytes | spa/plugins/alsa/alsa-utils.c:850-857 | as written, bytes past the wrapped part keep stale contents where the corrected copy has the area's first bytes |
| AlsaPcm.AsWrittenCaptureExample | spa/plugins/alsa/alsa-utils.c:850-857 | a two-byte capture wrapping after one byte yields [1, 0] as written and [4, 1] corrected |
| AlsaPcm.FitFrames | spa/plugins/alsa/alsa-utils.c:846-848 | the frames pushed are at most the threshold and fit in maxsize; fewer than the threshold only when one more frame would not fit |
| AlsaPcm.Stamp | spa/plugins/alsa/alsa-utils.c:837-841 | a header, when present, gets seq = sample_count, pts = now and dts_offset 0 |
| AlsaPcm.Fill | spa/plugins/alsa/alsa-utils.c:834-866 | the free buffer gets FitFrames frames, a chunk (0, bytes, frame size), its header stamped with the sample count and time, its id kept and the OUT flag; its memory keeps its size |
| AlsaPcm.PushFrames | spa/plugins/alsa/alsa-utils.c:817-870 | push_frames: with no free buffer the threshold is returned and nothing moves; otherwise the head free buffer is appended to the ready list and at most the threshold is returned |
| AlsaPcm.PushFramesFillsHead | spa/plugins/alsa/alsa-utils.c:834-867 | the pushed buffer is Fill of the head free buffer and moves from free to ready |
| AlsaPcm.FillContents | spa/plugins/alsa/alsa-utils.c:834-866 | the bytes of the filled buffer: zeros without a mapped area, otherwise the corrected circular copy from the ring that wraps to its start after the contiguous frames; the memory past them is unchanged |
| AlsaPcm.FollowPosition | spa/plugins/alsa/alsa-utils.c:881-894 | the threshold follows the quantum, last_position the clock position, and alsa_sync is set when a previous position was not followed by exactly last_threshold frames |
| AlsaPcm.ReadFrames | spa/plugins/alsa/alsa-utils.c:927-949 | one read pushes at most the threshold frames into the head free buffer; sample_count grows by the frames pushed on success and is unchanged on failure |
| AlsaPcm.CommitRead | spa/plugins/alsa/alsa-utils.c:941-947 | a commit failure other than EPIPE/ESTRPIPE leaves sample_count unchanged; otherwise it grows by the frames pushed |
| AlsaPcm.Read | spa/plugins/alsa/alsa-utils.c:873-950 | spa_alsa_read: a stream that is not slaved and started is ReadFrames after following the position; a slaved one with delay below the threshold resets the loop and returns 0 with sample_count unchanged; otherwise the loop runs and alsa_sync is cleared |
| AlsaPcm.HandlePlay | spa/plugins/alsa/alsa-utils.c:952-980 | a delay over twice last_threshold is -EAGAIN with nothing changed; with nothing ready the I/O slot asks for a buffer, fill_level = delay and the callback result is returned; otherwise it writes, only from the ready list |
| AlsaPcm.HandleCapture | spa/plugins/alsa/alsa-utils.c:982-1011 | a delay below last_threshold returns 0 with nothing changed; a slot holding a buffer is kept; when the slot changes it gets the first ready buffer with HAVE_BUFFER and every buffer stays free, ready or in the slot |
| AlsaPcm.HandOut | spa/plugins/alsa/alsa-utils.c:1001-1007 | the first ready buffer moves to the slot with HAVE_BUFFER; the multiset of free, ready and slot ids is unchanged |
| AlsaPcm.OnTimeout | spa/plugins/alsa/alsa-utils.c:1013-1042 | with a readable status the timeout is HandlePlay or HandleCapture of the synced state, by stream direction |
| AlsaPcm.ResetQueue | spa/plugins/alsa/alsa-utils.c:1044-1060 | the ready list empties; playback buffers are all OUT with an empty free list; capture buffers are all in the free list in index order and not OUT |
| AlsaPcm.ResetAccountsEveryBuffer | spa/plugins/alsa/alsa-utils.c:1044-1060 | after a reset a buffer is in the free list exactly once exactly when it is not OUT |
| AlsaPcm.Start | spa/plugins/alsa/alsa-utils.c:1081-1139 | already started returns 0 with nothing changed; otherwise the threshold is the quantum or min_latency, slaved is recomputed, and on success the slot is (OK, INVALID), alsa_sync is set and capture is running with all buffers free; a failure leaves it stopped |
| AlsaPcm.StartSetup | spa/plugins/alsa/alsa-utils.c:1088-1098 | threshold and last_threshold from the quantum or min_latency, slaved recomputed, fill_level 0 and the loop off |
| AlsaPcm.StartDevice | spa/plugins/alsa/alsa-utils.c:1105-1136 | a failed prepare or start leaves the state unchanged; on success the node is started with the slot reset and capture running |
| AlsaPcm.StartIsIdempotent | spa/plugins/alsa/alsa-utils.c:1085-1086 | starting a started stream again returns 0 and changes nothing |
| AlsaPcm.Pause | spa/plugins/alsa/alsa-utils.c:1189-1206 | pause returns 0 and only clears started |
| AlsaPcm.Reslave | spa/plugins/alsa/alsa-utils.c:1153-1167 | a started stream recomputes slaved; a stopped one is unchanged; always 0 |
| AlsaState.State.ResetBuffers | spa/plugins/alsa/alsa-utils.c:1044-1060 | only the buffer queue changes, to ResetQueue of the old queue for the stream's direction |
| AlsaState.State.Transfer | spa/plugins/alsa/alsa-utils.c:715-813 | the fields become the state of TransferFrom and the result and total are its own |
| AlsaState.State.Write | spa/plugins/alsa/alsa-utils.c:677-814 | the fields and the result are AlsaPcm.Write of the old state |
| AlsaState.State.Pause | spa/plugins/alsa/alsa-utils.c:1189-1206 | the fields are AlsaPcm.Pause of the old state: only started is cleared, result 0 |
| AlsaState.State.Reslave | spa/plugins/alsa/alsa-utils.c:1153-1167 | the fields are AlsaPcm.Reslave of the old state, result 0 |
| AlsaState.State.Start | spa/plugins/alsa/alsa-utils.c:1081-1139 | the fields and the result are AlsaPcm.Start of the old state |
| AlsaState.State.SetUp | spa/plugins/alsa/alsa-utils.c:1088-1098 | the fields become StartSetup of the old state |
| AlsaState.State.StartDevice | spa/plugins/alsa/alsa-utils.c:1105-1136 | the fields and the result are AlsaPcm.StartDevice of the old state |
| AlsaState.State.StartPlayback | spa/plugins/alsa/alsa-utils.c:1120-1136 | the playback branch gives the same fields and result as AlsaPcm.StartDevice |
| AlsaState.State.Prime | spa/plugins/alsa/alsa-utils.c:1121-1122 | priming is WriteIdle of the old state, marked not started, with twice the threshold of silence |
| AlsaMap.FormatInfo | spa/plugins/alsa/alsa-utils.c:67-91 | the format table: row 0 and only row 0 maps the unknown format to the unknown ALSA format |
| AlsaMap.RowOf | spa/plugins/alsa/alsa-utils.c:67-91 | every known SPA sample format has a row in the table |
| AlsaMap.LookupFrom | spa/plugins/alsa/alsa-utils.c:93-102 | the table search from row i returns the ALSA format of f's own row when that row is at or after i, and UNKNOWN for a format outside the table or whose row comes before i |
| AlsaMap.RowOfFormatInfo | spa/plugins/alsa/alsa-utils.c:67-91 | no SPA format has two rows: the format of row k leads back to row k |
| AlsaMap.FormatToAlsa | spa/plugins/alsa/alsa-utils.c:93-102 | a format in the table maps to the ALSA format of its own row; a format that no row has maps to UNKNOWN |
| AlsaMap.FormatToAlsaUnknown | spa/plugins/alsa/alsa-utils.c:93-102 | spa_format_to_alsa gives UNKNOWN exactly for the unknown format and for formats not in the table |
| AlsaMap.SelectFormat | spa/plugins/alsa/alsa-utils.c:402-407 | set_format refuses with -EINVAL exactly the formats that map to UNKNOWN, and otherwise uses the table's ALSA format |
| AlsaMap.DefaultLayout | spa/plugins/alsa/alsa-utils.c:156-166 | the default layout of c channels holds exactly c positions, all between MONO and SR |
| AlsaMap.Normalise | spa/plugins/alsa/alsa-utils.c:180-181 | a position outside 0..SND_CHMAP_LAST becomes UNKNOWN, others are kept |
| AlsaMap.NormaliseAll | spa/plugins/alsa/alsa-utils.c:179-181 | every position is normalised |
| AlsaMap.KeptStep | spa/plugins/alsa/alsa-utils.c:179-193 | one step of the first pass keeps exactly the positions seen once so far and marks the others UNKNOWN |
| AlsaMap.MasksStep | spa/plugins/alsa/alsa-utils.c:183-192 | one step keeps mask = the positions seen (duplicates replaced by UNKNOWN) and dup = the positions seen twice |
| AlsaMap.UnknownBitStep | spa/plugins/alsa/alsa-utils.c:183-192 | one step keeps the UNKNOWN bit of mask set exactly when an UNKNOWN or a repeat has been met |
| AlsaMap.ScanStep | spa/plugins/alsa/alsa-utils.c:179-193 | one iteration of the first pass: the position joins mask; one already in mask joins dup, sets the UNKNOWN bit and its slot becomes UNKNOWN; a new one stays in its slot normalised; later slots are untouched |
| AlsaMap.ScanPrefix | spa/plugins/alsa/alsa-utils.c:179-193 | the pass over the first n channels leaves the later channels as they were and keeps dup within mask (what it computes: ScanClosedForm) |
| AlsaMap.ScanInvariantStep | spa/plugins/alsa/alsa-utils.c:179-193 | one step of the first pass preserves the pass's invariant |
| AlsaMap.ScanInvariantStart | spa/plugins/alsa/alsa-utils.c:175-179 | the invariant holds before the first pass, with empty masks |
| AlsaMap.ScanPrefixStep | spa/plugins/alsa/alsa-utils.c:179-193 | the pass over i + 1 positions is one more step after the pass over i, and keeps the invariant |
| AlsaMap.ScanClosedForm | spa/plugins/alsa/alsa-utils.c:179-193 | after the first pass over n positions the invariant holds: kept positions, mask, dup and the UNKNOWN bit as above |
| AlsaMap.ScanUnknownBit | spa/plugins/alsa/alsa-utils.c:179-194 | after the whole first pass the UNKNOWN bit is set exactly when an UNKNOWN or out-of-range position or a repeat was met |
| AlsaMap.InvalidMapSetsUnknown | spa/plugins/alsa/alsa-utils.c:179-194 | a map with an unknown or out-of-range position, or a repeated one, sets the UNKNOWN bit, so sanitize_map goes on to repair it |
| AlsaMap.AscendingFrom | spa/plugins/alsa/alsa-utils.c:204-213 | the positions the shifting loop hands out, in strictly ascending order, all from the mask |
| AlsaMap.FillUnknownAt | spa/plugins/alsa/alsa-utils.c:204-215 | the second pass gives every UNKNOWN slot the next free default position in ascending order (0 once they run out) and keeps every other slot |
| AlsaMap.FillUnknownAtIndex | spa/plugins/alsa/alsa-utils.c:204-215 | the same, at one slot k: the number of UNKNOWN slots before k selects the position |
| AlsaMap.FillUnknownCons | spa/plugins/alsa/alsa-utils.c:205-213 | the second pass on a suffix is one slot followed by the pass on the rest |
| AlsaMap.FillUnknown | spa/plugins/alsa/alsa-utils.c:204-215 | the second pass keeps the number of channels (slot by slot: FillUnknownAt) |
| AlsaMap.Sanitized | spa/plugins/alsa/alsa-utils.c:173-217 | sanitize_map keeps the number of channels and every position the first pass kept |
| AlsaMap.MarkDuplicates | spa/plugins/alsa/alsa-utils.c:186-188 | the inner loop marks every earlier slot holding the repeated position UNKNOWN |
| AlsaMap.ShiftToNext | spa/plugins/alsa/alsa-utils.c:207-211 | the do-while loop moves the mask to the next available default position, or empties it when there is none |
| AlsaMap.FillSlot | spa/plugins/alsa/alsa-utils.c:206-213 | one slot of the second pass takes the next ascending position and nothing else in the map changes |
| AlsaMap.FillProgressStep | spa/plugins/alsa/alsa-utils.c:205-215 | one slot of the second pass keeps the loop's invariant |
| AlsaMap.FillUnknownSlots | spa/plugins/alsa/alsa-utils.c:204-215 | the second pass computes FillUnknown of the map with the default positions not already used |
| AlsaMap.SanitizeMap | spa/plugins/alsa/alsa-utils.c:173-217 | sanitize_map, in place on the array, computes Sanitized |
| AlsaMap.SanitizeKeepsValidMap | spa/plugins/alsa/alsa-utils.c:194-195 | a map with only valid, distinct positions is left unchanged |
| AlsaMap.SanitizeRepairsInvalidMap | spa/plugins/alsa/alsa-utils.c:194-215 | any other map is repaired: the UNKNOWN slots of the first pass are filled from the default layout minus the positions kept |
| AlsaMap.SanitizeKeepsUniquePositions | spa/plugins/alsa/alsa-utils.c:179-215 | a valid position that occurs once in the input keeps its slot |
| AlsaMap.SanitizedHasNoRepeats | spa/plugins/alsa/alsa-utils.c:173-217 | after sanitising no position other than 0 occurs twice |
| AlsaMap.UnknownsBeforeGrows | spa/plugins/alsa/alsa-utils.c:204-213 | later UNKNOWN slots see strictly more UNKNOWN slots before them, so they take later positions |
| Bluez5Device.Factories | spa/plugins/bluez5/bluez5-device.c:106-122 | a profile has factories exactly when it is an A2DP or headset profile: A2DP source gives the A2DP source factory, A2DP sink the sink factory, the four HSP/HFP profiles the SCO source then the SCO sink |
| Bluez5Device.Objects | spa/plugins/bluez5/bluez5-device.c:77-97 | the objects of one transport get consecutive ids from next_id, its name and the given factories in order |
| Bluez5Device.ConnectedMask | spa/plugins/bluez5/bluez5-device.c:105 | a transport is handled exactly when its profile bit is in the device's connected profiles |
| Bluez5Device.EmitFromContract | spa/plugins/bluez5/bluez5-device.c:99-127 | emit_nodes gives consecutive ids; every object comes from a connected transport with a handled profile, carries its name and one of its factories; the result is -EINVAL exactly when some connected transport has an unhandled profile, 0 otherwise |
| Bluez5Device.EmitFrom | spa/plugins/bluez5/bluez5-device.c:99-127 | the pass from transport k returns 0 or -EINVAL |
| Bluez5Device.Emission | spa/plugins/bluez5/bluez5-device.c:99-127 | every object emitted for a device has the next id in order and comes from a connected transport of the device |
| Bluez5Device.EmitFromSuffix | spa/plugins/bluez5/bluez5-device.c:104-124 | past the objects of the connected transports k..j-1, a successful pass from k goes on as the pass from j, with the ids counted on |
| Bluez5Device.EmittedIdsUnique | spa/plugins/bluez5/bluez5-device.c:96 | the ids emitted in one pass strictly increase, so they are distinct |
| Bluez5Device.EmitFromStep | spa/plugins/bluez5/bluez5-device.c:104-124 | emitting from transport k is that transport's objects followed by the emission from k + 1 |
| Bluez5Device.ConnectedHandled | spa/plugins/bluez5/bluez5-device.c:104-126 | when emit_nodes succeeds every connected transport has a handled profile |
| Bluez5Device.EmittedObjectAt | spa/plugins/bluez5/bluez5-device.c:104-126 | object i of a connected transport j sits after the objects of the connected transports before j, with the matching id, factory and name |
| Bluez5Device.EveryConnectedTransportEmitted | spa/plugins/bluez5/bluez5-device.c:99-127 | when emit_nodes succeeds every connected transport's objects appear, all of them, in factory order |
| Bluez5Device.EmitFromCons | spa/plugins/bluez5/bluez5-device.c:104-124 | an unhandled connected transport stops the pass with -EINVAL; otherwise its objects come first and the pass continues |
| Bluez5Device.LaterEmissionsHaveLargerIds | spa/plugins/bluez5/bluez5-device.c:96 | next_id only grows, so a second pass gives ids larger than every id of the first |
| Bluez5Device.EnumInterfaceInfo | spa/plugins/bluez5/bluez5-device.c:273-287 | index 0 yields the Device interface and advances the index (result 1); any later index yields nothing (result 0) |
| Bluez5Device.LastDevice | spa/plugins/bluez5/bluez5-device.c:250-253 | the device left by the item loop after k items is that of the last item with key bluez5.device whose value parses, none exactly when no such item came |
| Bluez5Device.Device.constructor | spa/plugins/bluez5/bluez5-device.c:61-75 | a fresh handle with no log, no main loop, no device, next_id 0 and nothing emitted |
| Bluez5Device.Device.Init | spa/plugins/bluez5/bluez5-device.c:221-267 | the log and the main loop are taken from the support list; without a main loop -EINVAL with the device untouched; the device becomes that of the last bluez5.device item that parses (LastDevice), or stays as it was when none does; without a device -EINVAL; otherwise 0 with next_id 0; nothing is emitted |
| Bluez5Device.Device.EmitNode | spa/plugins/bluez5/bluez5-device.c:77-97 | one object with id next_id, the factory and the transport's name is emitted and next_id grows by one |
| Bluez5Device.Device.EmitNodes | spa/plugins/bluez5/bluez5-device.c:99-127 | the objects emitted and the result are those of Emission for the device, and next_id grows by their number |
| Bluez5Device.Device.EmitTransport | spa/plugins/bluez5/bluez5-device.c:105-123 | a connected transport with a handled profile emits its objects; an unconnected one emits nothing; an unhandled profile emits nothing and fails |
| Bluez5Device.Device.EmitProfile | spa/plugins/bluez5/bluez5-device.c:106-122 | the switch on the profile emits the factories' objects or fails on an unknown profile |
| Bluez5Device.Device.AddListener | spa/plugins/bluez5/bluez5-device.c:133-168 | always 0; a listener with an info callback gets one info with media.class Audio/Device and no params; one with an object callback gets the emission of emit_nodes |
| EndpointProtocol.ParamFields | src/modules/module-endpoint/protocol-native.c:50-54 | each param info is written as two fields, id then flags |
| EndpointProtocol.PropFields | src/modules/module-endpoint/protocol-native.c:56-61 | each property is written as two string fields, key then value |
| EndpointProtocol.DecodeParams | src/modules/module-endpoint/protocol-native.c:83-89 | the param loop, when it succeeds, reads exactly n param infos |
| EndpointProtocol.DecodeProps | src/modules/module-endpoint/protocol-native.c:91-97 | the property loop, when it succeeds, reads exactly n items |
| EndpointProtocol.DecodeInfo | src/modules/module-endpoint/protocol-native.c:67-100 | deserialisation fails only with -EINVAL, and a decoded info always has a property dictionary and fits its counts |
| EndpointProtocol.DecodeParamsSomeIff | src/modules/module-endpoint/protocol-native.c:83-89 | the param loop succeeds exactly when the next 2n fields are alternately an Id and an Int |
| EndpointProtocol.DecodePropsSomeIff | src/modules/module-endpoint/protocol-native.c:91-97 | the property loop succeeds exactly when the next 2n fields are all strings |
| EndpointProtocol.DecodeInfoOkIff | src/modules/module-endpoint/protocol-native.c:67-100 | deserialisation succeeds exactly when the body is a struct of Id, Int, Int, Int followed by well-typed params and properties; otherwise -EINVAL |
| EndpointProtocol.DecodeParamsOfFields | src/modules/module-endpoint/protocol-native.c:50-54 | reading back the fields written for a param list gives that list |
| EndpointProtocol.DecodePropsOfFields | src/modules/module-endpoint/protocol-native.c:56-61 | reading back the fields written for a property list gives that list |
| EndpointProtocol.DecodeInfoAccepts | src/modules/module-endpoint/protocol-native.c:67-100 | a struct whose head and loops parse is decoded into the id, change mask, params and properties read |
| EndpointProtocol.DecodeInfoOfParts | src/modules/module-endpoint/protocol-native.c:67-100 | a struct laid out from an id, a mask, a param list and a property list decodes back into exactly those |
| EndpointProtocol.LayoutDecodes | src/modules/module-endpoint/protocol-native.c:33-100 | the layout serialize writes for a valid info is decoded into the info as received |
| EndpointProtocol.InfoRoundTrip | src/modules/module-endpoint/protocol-native.c:33-100 | deserialize(serialize(info)) gives the info back, with a NULL property dictionary received as an empty one |
| EndpointProtocol.EncodeInfo | src/modules/module-endpoint/protocol-native.c:34-64 | the info is one struct: id first, then the header fields, two fields per param and two per property |
| EndpointProtocol.ParamFieldsAppend | src/modules/module-endpoint/protocol-native.c:50-54 | one more param appends its two fields |
| EndpointProtocol.PropFieldsAppend | src/modules/module-endpoint/protocol-native.c:56-61 | one more property appends its two fields |
| EndpointProtocol.SerializeInfo | src/modules/module-endpoint/protocol-native.c:33-64 | the builder loops write EncodeInfo(info), which decodes back to the info as received |
| EndpointProtocol.DeserializeInfo | src/modules/module-endpoint/protocol-native.c:67-100 | the parser loops compute DecodeInfo and succeed exactly on well-typed bodies |
| EndpointProtocol.DemarshalMethod | src/modules/module-endpoint/protocol-native.c:117-213 | the three method demarshallers fail only with -EINVAL; subscribe_params hands over the ids of an Id array |
| EndpointProtocol.MethodRoundTrip | src/modules/module-endpoint/protocol-native.c:102-213 | every endpoint method demarshals back to what was marshalled (the filter or param pod included) |
| EndpointProtocol.MarshalMethod | src/modules/module-endpoint/protocol-native.c:103-194 | each method is one struct with its opcode: one field for subscribe_params, five for enum_params, three for set_param |
| EndpointProtocol.SubscribeRejectsNonIdArray | src/modules/module-endpoint/protocol-native.c:130-131 | subscribe_params with an array of any child type other than Id is -EINVAL |
| EndpointProtocol.DemarshalEvent | src/modules/module-endpoint/protocol-native.c:227-285 | the two event demarshallers fail only with -EINVAL; the info event succeeds exactly on a well-typed body |
| EndpointProtocol.EventRoundTrip | src/modules/module-endpoint/protocol-native.c:215-285 | the info and param events demarshal back to what was marshalled |
| EndpointProtocol.MarshalEvent | src/modules/module-endpoint/protocol-native.c:216-263 | the info and param events are one struct with their opcode, five fields for a param event |
| EndpointProtocol.PodFields | src/modules/module-endpoint/protocol-native.c:344-345 | each client param is written as one pod field (NULL as a None pod) |
| EndpointProtocol.MarshalUpdate | src/modules/module-endpoint/protocol-native.c:324-353 | the update is one struct: change mask, the param count, one pod field per param in order, and the info only when UPDATE_INFO is set |
| EndpointProtocol.DecodeObjects | src/modules/module-endpoint/protocol-native.c:377-380 | the param loop of the update, when it succeeds, reads exactly n params |
| EndpointProtocol.DemarshalUpdate | src/modules/module-endpoint/protocol-native.c:355-388 | the client update fails only with -EINVAL, and every param it hands over is an object or NULL |
| EndpointProtocol.DecodeObjectsAreObjects | src/modules/module-endpoint/protocol-native.c:377-380 | each param read by the update's loop is an object or NULL |
| EndpointProtocol.DecodeObjectsOfFields | src/modules/module-endpoint/protocol-native.c:344-345 | reading the params back succeeds exactly when every param is an object or NULL, and gives them back |
| EndpointProtocol.UpdateRoundTrip | src/modules/module-endpoint/protocol-native.c:323-388 | a marshalled client update demarshals exactly when all its params are objects or NULL, and then gives the update back (the info only when the UPDATE_INFO bit is set) |
| EndpointProtocol.DemarshalClientSetParam | src/modules/module-endpoint/protocol-native.c:409-428 | the client set_param event fails only with -EINVAL and hands over an object or NULL |
| EndpointProtocol.ClientSetParamRoundTrip | src/modules/module-endpoint/protocol-native.c:390-428 | client set_param demarshals exactly when its param is an object or NULL, and then gives it back |
| EndpointImpl.ApplyFilter | src/modules/module-endpoint/endpoint-impl.c:88-90 | without a filter the param itself is reported |
| EndpointImpl.Limit | src/modules/module-endpoint/endpoint-impl.c:96-97 | a num of 0 reports every match (count never equals 0 after the increment); otherwise the first num matches, all of them when fewer |
| EndpointImpl.ParamEvents | src/modules/module-endpoint/endpoint-impl.c:94 | one param event per reported match |
| EndpointImpl.MatchesSound | src/modules/module-endpoint/endpoint-impl.c:78-95 | every reported (index, result) has start <= index < n_params, a non-NULL object param of the requested id that passes the filter, and the filtered pod as result |
| EndpointImpl.MatchesComplete | src/modules/module-endpoint/endpoint-impl.c:78-95 | every such param from start on is reported |
| EndpointImpl.MatchesIncreasing | src/modules/module-endpoint/endpoint-impl.c:78-95 | the reports come in strictly increasing index order |
| EndpointImpl.MatchesStep | src/modules/module-endpoint/endpoint-impl.c:79-95 | the scan from index is that index's report, if any, followed by the scan from index + 1 |
| EndpointImpl.LimitOfPrefix | src/modules/module-endpoint/endpoint-impl.c:96-97 | stopping when count reaches num, or at the end, leaves exactly the limited prefix sent |
| EndpointImpl.MatchesFromEnd | src/modules/module-endpoint/endpoint-impl.c:80-81 | a start at or past n_params reports nothing |
| EndpointImpl.ReplayIsUnlimited | src/modules/module-endpoint/endpoint-impl.c:116 | the replay on subscription, with num = UINT32_MAX and no filter, reports every matching param |
| EndpointImpl.SubscriberEvents | src/modules/module-endpoint/endpoint-impl.c:270-275 | a resource gets one event per subscription entry equal to the param's id, each (seq 1, id, index, next, param) |
| EndpointImpl.BroadcastParam | src/modules/module-endpoint/endpoint-impl.c:268-276 | every notification goes to a resource subscribed to the param's id and carries that id, index, next and param |
| EndpointImpl.SubscriberEventsNeedEntry | src/modules/module-endpoint/endpoint-impl.c:270-275 | a resource that is not subscribed to the id gets nothing |
| EndpointImpl.NotifyEvents | src/modules/module-endpoint/endpoint-impl.c:263-264 | a NULL param or one that is not an object notifies nobody |
| EndpointImpl.SlotRun | src/modules/module-endpoint/endpoint-impl.c:315-334 | the incremental inner loop keeps a control param in the slot, either the old one or one of the new params (which one: SlotRunIsLastMatch) |
| EndpointImpl.IncrementalRun | src/modules/module-endpoint/endpoint-impl.c:310-335 | the incremental update keeps the number of params (what each slot becomes: IncrementalRunIsLastMatch) |
| EndpointImpl.IncrementalRunSnoc | src/modules/module-endpoint/endpoint-impl.c:310-335 | the outer loop: a control slot goes through the inner loop, any other slot is skipped unchanged |
| EndpointImpl.IncrementalOnlyReplacesControls | src/modules/module-endpoint/endpoint-impl.c:310-335 | an incremental update leaves non-control params alone and only ever replaces a control by a new control param |
| EndpointImpl.SlotRunKeepsControlId | src/modules/module-endpoint/endpoint-impl.c:322-333 | a replacement only happens when the control ids are equal, so a slot keeps its control id; a control without an id is never replaced |
| EndpointImpl.ReplacementIsLastMatch | src/modules/module-endpoint/endpoint-impl.c:315-334 | the param a Control param becomes is the last new param with its control id, or itself when none has it |
| EndpointImpl.ControlEventsShape | src/modules/module-endpoint/endpoint-impl.c:322-333 | a Control param with no new param of its control id announces nothing; every announcement is a Control param at its index with next = UINT32_MAX |
| EndpointImpl.SlotRunIsLastMatch | src/modules/module-endpoint/endpoint-impl.c:315-334 | the inner loop replaces a Control param by the last new param with the same control id, keeping it when none matches, and sends one notification per match in order |
| EndpointImpl.SlotRunSnoc | src/modules/module-endpoint/endpoint-impl.c:315-334 | one more new param adds one replacement step to the inner loop |
| EndpointImpl.IncrementalEventsShape | src/modules/module-endpoint/endpoint-impl.c:304-336 | every announcement of an incremental update is a Control param at the index of an existing param, with next = UINT32_MAX |
| EndpointImpl.IncrementalRunIsLastMatch | src/modules/module-endpoint/endpoint-impl.c:304-336 | an incremental update turns every Control param into the last new param with its control id (itself when none) and leaves every other param as it was |
| EndpointImpl.SetProp | src/modules/module-endpoint/endpoint-impl.c:351 | setting one property replaces an existing key or adds it |
| EndpointImpl.UpdateProps | src/modules/module-endpoint/endpoint-impl.c:351 | updating adds at most one entry per new item |
| EndpointImpl.SetPropLookup | src/modules/module-endpoint/endpoint-impl.c:351 | after setting an item its key reads the new value and every other key is unchanged |
| EndpointImpl.UpdatePropsLookup | src/modules/module-endpoint/endpoint-impl.c:351 | after pw_properties_update each key reads its last new value when the update has one, the old value otherwise |
| EndpointImpl.InfoEvents | src/modules/module-endpoint/endpoint-impl.c:355-357 | every bound resource gets the info, in list order |
| EndpointImpl.Endpoint.constructor | src/modules/module-endpoint/endpoint-impl.c:191-231 | a new endpoint has no params, the global's id, no info params, a copy of the properties, no resources and has sent nothing |
| EndpointImpl.Endpoint.EnumParams | src/modules/module-endpoint/endpoint-impl.c:62-100 | the events sent are one param event per match from start, limited to num |
| EndpointImpl.Endpoint.SubscribeParams | src/modules/module-endpoint/endpoint-impl.c:102-119 | the resource keeps at most 32 ids, and every kept id replays its matching params, in id order |
| EndpointImpl.Endpoint.SetParam | src/modules/module-endpoint/endpoint-impl.c:121-133 | set_param is forwarded to the owner with its id, flags and param and changes nothing else |
| EndpointImpl.Endpoint.Bind | src/modules/module-endpoint/endpoint-impl.c:154-188 | a failed allocation is -ENOMEM with nothing changed; otherwise the resource is appended with no subscriptions and gets the info with PARAMS and PROPS in its change mask |
| EndpointImpl.Endpoint.Unbind | src/modules/module-endpoint/endpoint-impl.c:142-147 | the resource leaves the list and nothing else changes |
| EndpointImpl.Endpoint.NotifySubscribed | src/modules/module-endpoint/endpoint-impl.c:252-277 | the events sent are NotifyEvents of the param at index |
| EndpointImpl.Endpoint.NotifyResource | src/modules/module-endpoint/endpoint-impl.c:269-275 | one resource's subscriptions are scanned and its events sent |
| EndpointImpl.Endpoint.ClientUpdate | src/modules/module-endpoint/endpoint-impl.c:279-362 | UPDATE_PARAMS replaces all params; otherwise UPDATE_PARAMS_INCREMENTAL runs the incremental update; UPDATE_INFO replaces the info params and updates the properties by the info's change mask and sends the info to every resource; the result is 0 |
| EndpointImpl.Endpoint.UpdateAll | src/modules/module-endpoint/endpoint-impl.c:289-303 | the params become the new ones and each is notified with next = index + 1 |
| EndpointImpl.Endpoint.UpdateIncremental | src/modules/module-endpoint/endpoint-impl.c:304-336 | the params and events are those of IncrementalRun |
| EndpointImpl.Endpoint.UpdateSlot | src/modules/module-endpoint/endpoint-impl.c:315-334 | the slot and events are those of SlotRun |
| EndpointImpl.Endpoint.UpdateInfo | src/modules/module-endpoint/endpoint-impl.c:338-359 | the info params and properties follow the change mask and every resource gets the new info |
| EndpointImpl.Endpoint.SendInfo | src/modules/module-endpoint/endpoint-impl.c:355-357 | every resource gets the info |
| EndpointImpl.IncrementalAsWrittenDereferencesNull | src/modules/module-endpoint/endpoint-impl.c:310-312 | as written, a NULL stored param reaches spa_pod_is_object_id, which dereferences it; the corrected update skips it |
| EndpointImpl.IncrementalAsWrittenDereferencesNullUpdate | src/modules/module-endpoint/endpoint-impl.c:315-316 | as written, a NULL new param is dereferenced the same way; the corrected update ignores it |
| EndpointImpl.SlotRunAsWritten | src/modules/module-endpoint/endpoint-impl.c:315-334 | as written, the inner loop dereferences a NULL exactly when a new param is NULL, and otherwise is the corrected loop |
| EndpointImpl.IncrementalAsWritten | src/modules/module-endpoint/endpoint-impl.c:304-336 | as written, the update dereferences a NULL exactly when a stored param is NULL, or a new param is NULL and some stored param is a Control; otherwise it is the corrected update |
| EndpointImpl.SlotRunAgrees | src/modules/module-endpoint/endpoint-impl.c:315-334 | without NULL new params the corrected inner loop is the loop as written |
| EndpointImpl.IncrementalAgreesWithoutNull | src/modules/module-endpoint/endpoint-impl.c:310-335 | without NULL params the corrected update is the update as written |
| MediaPolicy.RoleIdx | src/examples/media-session.c:194-205 | the index of the role in the six-entry role table, -1 exactly when there is no role or it is not in the table |
| MediaPolicy.RoleIdxOfTable | src/examples/media-session.c:194-205 | every role of the table is found at its own index |
| MediaPolicy.ClassifyStream | src/examples/media-session.c:614-636 | a "Stream/Output/" or "Stream/Input/" class makes a stream of that direction whose media is the rest of the class |
| MediaPolicy.ClassifyDevice | src/examples/media-session.c:637-682 | a node becomes a device (and gets a session) exactly for Audio/ or Video/ followed by Sink (OUTPUT) or Source (INPUT); only Audio/ needs a DSP |
| MediaPolicy.ClassifyDsp | src/examples/media-session.c:650-656 | an Audio/DSP/ or Video/DSP/ class marks the node as a DSP node |
| MediaPolicy.Classify | src/examples/media-session.c:614-682 | without a media class the node is unclassified; a classified node has a Stream/, Audio/ or Video/ class, and a stream a Stream/ one |
| MediaPolicy.PortDirectionOf | src/examples/media-session.c:779 | a port is INPUT exactly when its port.direction property is "out" |
| MediaPolicy.NewPort | src/examples/media-session.c:779-784 | the port keeps its id and direction, is a DSP port exactly when port.dsp is set, and is skipped exactly when its node is a DSP node and the port is not a DSP port |
| MediaPolicy.AtoiFormatInt | src/examples/media-session.c:1555-1622 | reading back a decimal number printed by the reply gives the same integer |
| MediaPolicy.DecimalValue | src/examples/media-session.c:1555-1622 | the decimal digits written for n read back as n |
| MediaPolicy.ParseUint64 | src/examples/media-session.c:668-671 | the node.plugged value is kept within 64 bits |
| MediaPolicy.ToUint32 | src/examples/media-session.c:1253-1257 | the target node id read by atoi is reduced to 32 bits, unchanged when it already fits |
| MediaPolicy.DefaultCategory | src/examples/media-session.c:1172-1188 | corrected category: INPUT gives Capture; OUTPUT gives Playback unless only input ports exist; with no direction the port counts decide Capture, Playback, Duplex or nothing |
| MediaPolicy.DefaultCategoryAsWrittenIgnoresPorts | src/examples/media-session.c:1172-1188 | as written, every node without a category gets Capture or Playback (never Duplex or -EINVAL), a node with only output ports and no direction is called Capture where the port counts say Playback, and an OUTPUT node with only input ports is still Capture |
| MediaPolicy.DefaultCategoryAgrees | src/examples/media-session.c:1172-1188 | for a node that has a direction the corrected category is the one the code picks |
| MediaPolicy.DefaultRole | src/examples/media-session.c:1190-1207 | the default role for Audio and Video by category (Duplex gives Communication, Capture gives Capture or Camera, otherwise Multimedia or Video), none for other media |
| MediaPolicy.SearchClass | src/examples/media-session.c:1215-1241 | Audio Playback looks for an Audio/Sink on the preferred sink device, Audio Capture for an Audio/Source on the preferred source, Video Capture for a Video/Source; any other pair has no target |
| MediaPolicy.Rescan | src/examples/media-session.c:1145-1267 | corrected rescan decision: nodes that need no linking are ignored; the search carries the stored role, the media class, the device, the link direction, the target and the exclusive flag; a node with no category, or of other media with no role, is refused |
| MediaPolicy.RescanWith | src/examples/media-session.c:1172-1267 | no category makes the node invalid; a search or rejection carries the stored role; no decision only without a role; a search links OUTPUT for Capture and INPUT otherwise |
| MediaPolicy.RescanAsWritten | src/examples/media-session.c:1126-1267 | as written, a node is ignored exactly when it needs no linking, and the node is never reported invalid |
| MediaPolicy.RescanAsWrittenDuplicatesNull | src/examples/media-session.c:1190-1208 | as written, a Midi stream without a role reaches the duplication of a NULL role, where the corrected decision refuses it |
| MediaPolicy.RescanAgrees | src/examples/media-session.c:1145-1267 | wherever the code does not reach a NULL role and the node has a direction or its own category, the corrected decision is the code's |
| MediaPolicy.Best | src/examples/media-session.c:957-1009 | the chosen session is an enabled, matching session that is not in use |
| MediaPolicy.BestIsFirstHighest | src/examples/media-session.c:957-1009 | no session is chosen exactly when none is a candidate; otherwise the chosen one has the highest plugged time and every earlier candidate a strictly lower one |
| MediaPolicy.TargetTakesFirst | src/examples/media-session.c:971-993 | with a target node the first candidate session is the one chosen |
| MediaPolicy.LinkablePorts | src/examples/media-session.c:1032-1035 | the ports link_nodes considers are exactly the peer ports of the other direction that are not skipped |
| MediaPolicy.LinkRunAsWritten | src/examples/media-session.c:1027-1069 | as written, link_nodes links at most max ports when max is not negative |
| MediaPolicy.LinkRun | src/examples/media-session.c:1027-1069 | the corrected run links at most as many ports as there are free link slots |
| MediaPolicy.LinkRunAsWrittenMeaning | src/examples/media-session.c:1027-1069 | as written, link_nodes links the linkable ports after the first zone_skip of them, at most max of them when max is not negative |
| MediaPolicy.LinkRunIsCapped | src/examples/media-session.c:1027-1069 | the corrected run is the as-written run cut to the room in the link slots |
| MediaPolicy.LinkRunAsWrittenAll | src/examples/media-session.c:1027-1069 | with no zone skip and max negative or large enough, every linkable port is linked |
| MediaPolicy.SkipSignOnly | src/examples/media-session.c:1023-1036 | a zero or negative zone skip skips no port |
| MediaPolicy.LinkNodesOverrunsSlots | src/examples/media-session.c:1027-1061 | as written, 18 linkable ports make 18 links for 16 link slots; the corrected run stops at 16 |
| MediaPolicy.Strip | src/examples/media-session.c:1561 | the stripped line neither starts nor ends with a newline, carriage return, space or tab (what is cut off: StripTrimmed) |
| MediaPolicy.StripFrontCuts | src/examples/media-session.c:1561 | cutting the front keeps a suffix of the line and cuts only white space |
| MediaPolicy.StripBackCuts | src/examples/media-session.c:1561 | cutting the back cuts only white space |
| MediaPolicy.StripTrimmed | src/examples/media-session.c:1561 | the stripped line is the line with only white space cut off before and after it |
| MediaPolicy.WordLength | src/examples/media-session.c:1536-1553 | a word runs up to the first space or tab |
| MediaPolicy.SplitIp | src/examples/media-session.c:1536-1553 | the split is empty exactly for an empty line and gives at most max_tokens tokens, one when max_tokens is 0 or 1 (their meaning: SplitIpTokens, SplitIpLastIsRest, SplitIpIsWords) |
| MediaPolicy.SplitIpTokens | src/examples/media-session.c:1536-1553 | every token but the last holds no space or tab, and the last one too when fewer than max_tokens tokens came out |
| MediaPolicy.SplitIpLastIsRest | src/examples/media-session.c:1536-1553 | when max_tokens tokens came out, the last is the unsplit rest of the line, a suffix of it |
| MediaPolicy.Words | src/examples/media-session.c:1536-1553 | the words of a line are non-empty runs without space or tab |
| MediaPolicy.SplitIpIsWords | src/examples/media-session.c:1536-1553 | on a line not starting with a delimiter the split gives its words when there are fewer than max_tokens, and otherwise the first max_tokens - 1 words followed by the rest |
| MediaPolicy.SplitThree | src/examples/media-session.c:1536-1553 | two words and a rest separated by single spaces split into exactly those three parts, the last one unsplit |
| MediaPolicy.ParseRequest | src/examples/media-session.c:1555-1622 | a parsed request that sets a value sets one the command accepts (volume 0..100, mute 0..1, zone not negative) |
| MediaPolicy.RequestOf | src/examples/media-session.c:1572-1620 | a request that sets a value sets one its command accepts |
| MediaPolicy.RequestOfName | src/examples/media-session.c:1572-1620 | a known command with an accepted value sets it, with -1 queries, and with any other value is refused |
| MediaPolicy.ParseWords | src/examples/media-session.c:1561-1572 | a stripped, non-empty line is parsed from its first three words, and fewer than three words are refused |
| MediaPolicy.ParseRender | src/examples/media-session.c:1555-1622 | every request written as "command role value" parses back to itself |
| MediaSession.UnlinkClearsPacked | src/examples/media-session.c:1079-1085 | on link slots filled from the front, unlinking destroys every stored link and leaves every slot empty |
| MediaSession.ClearedPacked | src/examples/media-session.c:1079-1085 | unlinking keeps the slots filled from the front |
| MediaSession.FilledPacked | src/examples/media-session.c:1061 | storing new links from the first slot on keeps the slots filled from the front |
| MediaSession.LinkRunMeaning | src/examples/media-session.c:1011-1071 | the corrected link_nodes links the linkable peer ports past the zone skip, at most max of them and at most the 16 slots |
| MediaSession.NodeVolumeTargets | src/examples/media-session.c:243-252 | for one session's node list, a volume request goes, with the given volume and mute, exactly to the listed nodes whose known role is the role (or, with other_roles, another role) |
| MediaSession.VolumeTargets | src/examples/media-session.c:239-253 | over the session list, the volume requests go exactly to the affected nodes of the audio sessions (those with a DSP) |
| MediaSession.DetachListKeeps | src/examples/media-session.c:1105-1117 | after one node list is detached, no kept id has the role, every dropped id is out of its session, and nodes only lose their roles |
| MediaSession.DetachList | src/examples/media-session.c:1105-1117 | detaching one node list keeps the bound node ids and at most the ids of the list |
| MediaSession.DetachOne | src/examples/media-session.c:1101-1117 | a session keeps its DSP and at most its nodes, and the bound node ids are kept |
| MediaSession.DetachSessions | src/examples/media-session.c:1101-1118 | the zone change keeps the number of sessions and the bound node ids |
| MediaSession.DetachOneKeeps | src/examples/media-session.c:1101-1117 | a session keeps its id and DSP, a session without a DSP is untouched, and no node of the role stays in an audio session |
| MediaSession.DetachSessionsShape | src/examples/media-session.c:1101-1118 | every session keeps its id and DSP, and the sessions without a DSP are left as they were |
| MediaSession.DetachSessionsRemovesRole | src/examples/media-session.c:1101-1118 | after the zone change no node of the role remains in an audio session, and every other node keeps its role |
| MediaSession.SessionManager.constructor | src/examples/media-session.c:1759-1764 | every role starts at volume 1.0, unmuted, in zone 0, with the AUDIO_SINK and AUDIO_SRC preferences and nothing bound |
| MediaSession.SessionManager.FindObject | src/examples/media-session.c:291-297 | an object is found only at an id below the size of the object table |
| MediaSession.SessionManager.AddObject | src/examples/media-session.c:278-284 | the object is found at its id afterwards, every other id finds what it found before, and the table grows to hold the id |
| MediaSession.SessionManager.RemoveObject | src/examples/media-session.c:286-289 | the id finds nothing afterwards and every other id finds what it found before |
| MediaSession.SessionManager.RoleGetProps | src/examples/media-session.c:263-276 | fails exactly when nothing is asked for or the role is unknown; otherwise returns exactly the role's values asked for |
| MediaSession.SessionManager.SessionSetVolume | src/examples/media-session.c:243-252 | appends the volume requests for one session's affected nodes, in list order |
| MediaSession.SessionManager.RoleSetVolume | src/examples/media-session.c:222-261 | -1 and no change for an unknown role; otherwise the given or stored volume and mute go to every affected node of the audio sessions, and are stored for the role unless other_roles is set |
| MediaSession.SessionManager.UnlinkNodeFromDsp | src/examples/media-session.c:1073-1086 | -1 and no change without a core proxy; otherwise 0, the node's links up to the first empty slot destroyed in order and their slots emptied |
| MediaSession.SessionManager.DestroyLinks | src/examples/media-session.c:1079-1085 | destroys the links up to the first empty slot, in slot order, and empties those slots |
| MediaSession.SessionManager.DetachNode | src/examples/media-session.c:1110-1114 | the node is unlinked, its role released (set to None, where the code frees the string and leaves the pointer dangling: see the RoleSetZone line under Left out) and its session cleared |
| MediaSession.SessionManager.DetachListNode | src/examples/media-session.c:1105-1116 | one node of a session's list: detached when it has the role, kept otherwise |
| MediaSession.SessionManager.DetachSession | src/examples/media-session.c:1101-1117 | the nodes of the role are taken out of one audio session, which keeps its other nodes in order |
| MediaSession.SessionManager.DetachRole | src/examples/media-session.c:1101-1118 | the nodes of the role are taken out of every audio session, session by session in list order |
| MediaSession.SessionManager.RoleSetZone | src/examples/media-session.c:1088-1124 | -1 and no change for an unknown role; otherwise the zone is stored and every node of the role leaves its audio session, unlinked, for the rescan to place again |
| MediaSession.SessionManager.HandleNode | src/examples/media-session.c:581-684 | the node is bound and classified; a stream asks for its formats, a device opens a session with its direction, DSP need and plugged time; the result is 1 for streams and devices and 0 otherwise |
| MediaSession.SessionManager.HandlePort | src/examples/media-session.c:754-803 | -ESRCH without a known parent node, -EINVAL without a port.direction, with nothing changed; otherwise the port is bound and appended to its node, and a device's port asks for its formats |
| MediaSession.SessionManager.FindSession | src/examples/media-session.c:957-1009 | the session chosen over the whole list is the first enabled, matching, free session with the highest plugged time |
| MediaSession.SessionManager.LinkNodes | src/examples/media-session.c:1011-1071 | the corrected link_nodes: one link per chosen peer port, in order, with the direction of the port, each proxy stored in the next slot from the first |
| MediaSession.SessionManager.CreateLinks | src/examples/media-session.c:1027-1069 | the port loop makes exactly the links of the corrected run and fills exactly that many slots from the first |
| MediaSession.SessionManager.Parse | src/examples/media-session.c:1555-1622 | a well-formed command for a known role answers with the role's value, which equals the value set when one was given; anything else is refused, and a refusal or a query changes nothing |
| MediaSession.SessionManager.Execute | src/examples/media-session.c:1572-1620 | the volume, mute and zone branches: set through role_set_volume or role_set_zone, then read back through role_get_props |

## Left out

- AudioMixer.BindBuffers: defined for at most 64 buffers, the table's size; its one caller, the corrected UseBuffersOn, answers INVALID_ARGUMENTS to more, and what the loop as written does beyond that is StoredSlotsAsWritten.
- AudioMixer.Mixer.BindTable: defined for at most 64 buffers, as BindBuffers which it computes.
- AudioMixer.UseBuffersAsWritten: defined for at most 64 buffers; with more the loop as written stores past the table (StoredSlotsAsWritten), behaviour C leaves undefined.
- I/O, clocks and devices are not modelled. Socket reads, the PCM device's replies, the Bluetooth transport's acquire and release results, and the current time are parameters. The session manager's requests to the server are recorded as effects rather than sent.
- Floating point is not modelled. Volumes are reals, so reading back a volume just set gives exactly the percentage that was written; the C float arithmetic could report one less. The timing loop of the ALSA driver (`set_loop` and the filter and drift clamp of `update_time`) is reduced to its bandwidth stage. `next_time` scheduling and the timer calls are left out.
- Cross-thread hand-offs are left out: `spa_loop_invoke`, `do_remove_source`, `do_reslave` and the `a2dp_on_ready_read` source callback. Their effect on the node state is applied in the calling method.
- Pod building and filtering are not modelled. The enum-format and enum-params builders of the mixer, the A2DP source and the ALSA driver are left out, as are `spa_alsa_enum_format`, `get_props`/`set_props`, `port_get_info` and `port_enum_params`. `spa_pod_filter` in the endpoint is the function parameter `f`.
- `sbc_decode` is a function parameter. The RTP header is skipped by its fixed size. Decoded sample bytes are not kept: a buffer's chunk records only how many bytes were decoded.
- A2dpSource.Fill: models the corrected inner decode loop, in which a negative decoder result ends decoding; the loop as written is `InnerStepAsWritten` (see Findings). The decoder's consumed and written counts are clamped to the input and the room left, where the code subtracts them unchecked, so a decoder that reports more than it was given is not modelled.
- AudioMixer: `set_callbacks`, `get_n_ports`, `get_port_ids`, `port_alloc_buffers`, `port_set_param` and `port_send_command` are left out. They only return a constant or store a callback. Buffer memory is int16 samples, and a byte offset is halved to a sample index.
- A2dpSource: `port_alloc_buffers`, `add_port`, `remove_port` and the node and port info emitters are left out. They only return a constant result or call back into the host.
- AlsaPcm: `snd_pcm_*` calls, `set_swparams`, the timerfd, and opening and closing the device are behind the abstract ring `Ring`. The results of `mmap_begin`, `avail`, `status` and `recover` are parameters.
- SanitizeMap: requires at most 8 channels, because the default-layout table has entries for 0 to 8 channels only. A larger map reads past that table, and this is not modelled.
- Bluez5Device: `impl_enum_params` and `impl_set_param` return -ENOTSUP unconditionally and are left out.
- EndpointImpl.ApplyFilter: without a filter `spa_pod_filter` still copies the param into the 1024-byte builder buffer of `endpoint_enum_params`. The model passes the param through unchanged, so a param too large for that buffer, which the copy would refuse and the scan would skip, is reported.
- EndpointImpl: memory allocation in `pw_endpoint_init` and `pw_client_endpoint_new` is assumed to succeed. In `Bind`, the resource allocation's outcome is a parameter. `pw_endpoint_clear` and the resource destroy hooks are left out.
- EndpointProtocol: the pod builder and parser sources are not part of this model. Their conventions (a NULL pod is a None pod, 'O' accepts an object or None, trailing fields are ignored) are stated once in `SpaPod`.
- MediaPolicy: a property dictionary is a map from the keys the session manager reads. A dictionary with a repeated key, where `spa_dict_lookup` returns the first entry, is not modelled. `atoi` is modelled as leading white space, an optional sign and decimal digits; its 32-bit overflow is left out. `pw_properties_parse_uint64` is modelled as reading decimal digits only and saturating at UINT64_MAX. The `PW_NODE_PROP_*` keys are named, not spelled out, because their header is not part of this model.
- MediaPolicy.Rescan: stops at the decision to search for a session. The steps after the search are left out: starting the session, exclusive and busy marking, attaching the node, the DSP profile and calling `link_nodes`. They are proxy plumbing.
- MediaPolicy.Best: a session whose device node has no info or no properties is not a candidate. The code dereferences the node's info without checking for NULL; that case is not modelled.
- MediaSession: the socket plumbing (`open_comm`, `comm_*`), `main`'s loop setup, the registry callbacks, idle timers, `link_session_dsp`, `rescan_session`, `on_state_changed`, `port_event_param` and session enabling are left out. These cover proxy and event plumbing. `schedule_rescan` is left out, so after a zone change the nodes stay detached until the next rescan.
- MediaSession.SessionManager.HandlePort: the parent is looked up among the bound nodes; a port whose parent id names a bound object that is not a node is refused with -ESRCH, where the code would treat that object as a node.
- MediaSession.SessionManager.RoleSetZone: the code frees the node's role string (src/examples/media-session.c:1113) without setting it to NULL, so the node keeps a dangling pointer until the rescan overwrites it (:1208), and a node destroyed before that rescan has the string freed a second time (:557). The model sets the role to None instead and models neither the dangling pointer nor the second free. Removing a node from a session's list keeps the list's other ids in order.
- MediaSession.SessionManager.DetachRole: the ids in a session's node list that are not bound nodes are kept in the list and otherwise skipped.
- MediaSession: that link slots stay filled from the front is proved by `ClearedPacked` and `FilledPacked`, not kept in the class invariant `Valid`.

## Findings

| source | as written | input that shows it | evidently intended | confidence | as-written member | corrected member |
|---|---|---|---|---|---|---|
| spa/plugins/audiomixer/audiomixer.c:318-326 | `clear_buffers` resets the queue only when `n_buffers > 0`, but a failed `use_buffers` leaves `n_buffers` at 0 with buffers already queued | `use_buffers` on an output port with a format, given a mapped buffer 0 and an unmapped buffer 1, then `use_buffers` with buffer 0 alone | clearing always empties the queue | high, not executed | AudioMixer.UseBuffersAsWrittenQueuesTwice | AudioMixer.ClearBuffers |
| spa/plugins/alsa/alsa-utils.c:850-857 | on a wrapped capture, the second copy writes to the start of the destination buffer instead of after the first l0 bytes | a two-byte read that wraps after one byte | the wrapped bytes follow the first part | high, not executed | AlsaPcm.AsWrittenCaptureExample | AlsaPcm.CaptureCopy |
| spa/plugins/alsa/alsa-utils.c:746-762 | a head ready buffer with less than one frame left yields `n_frames` = 0, is never released and the `again` loop repeats forever | a ready buffer whose size minus `ready_offset` is smaller than the frame size | a buffer with less than a frame left is released | medium, not executed | AlsaPcm.AsWrittenStallsOnPartialFrame | AlsaPcm.CopyLoopContract |
| spa/plugins/bluez5/a2dp-source.c:254-262 | `src_size -= header_size` on an unsigned size wraps for a packet shorter than the RTP header | a read of 5 bytes | short packets are dropped | high, not executed | A2dpSource.PayloadSizeAsWritten | A2dpSource.PayloadSize |
| src/modules/module-endpoint/endpoint-impl.c:310-316 | an incremental update passes a NULL stored or new param to `spa_pod_is_object_id`, which dereferences it | a stored param list with a NULL entry and PARAMS_INCREMENTAL set | NULL params are skipped | high, not executed | EndpointImpl.IncrementalAsWrittenDereferencesNull | EndpointImpl.IncrementalOnlyReplacesControls |
| src/examples/media-session.c:1172-1188 | the default category tests `node->direction`, which is always INPUT or OUTPUT (a node whose media class was not classified keeps the zero value, INPUT), alongside the port counts, so the Duplex and -EINVAL branches can never be reached and such an unclassified node is always Capture; the port counts only still turn an OUTPUT node with only input ports into Capture | a node with no category, no stream direction, no input ports and one output port | the port counts decide for a node without a direction | medium, not executed | MediaPolicy.DefaultCategoryAsWrittenIgnoresPorts | MediaPolicy.DefaultCategory |
| src/examples/media-session.c:1190-1208 | a stream whose media is neither Audio nor Video and that has no role gets `strdup(NULL)` | a Midi stream with autoconnect set and no role | such a stream is refused | high, not executed | MediaPolicy.RescanAsWrittenDuplicatesNull | MediaPolicy.Rescan |
| src/examples/media-session.c:1027-1061 | `link_proxy[i++]` has no bound, so more than 16 linkable ports write past the 16 slots | a peer with 18 linkable ports and `max` of 18 or -1 | linking stops at 16 links | high, not executed | MediaPolicy.LinkNodesOverrunsSlots | MediaPolicy.LinkRunIsCapped |
| spa/plugins/bluez5/a2dp-source.c:283-292 | the decoder's signed result is stored in the size_t `decoded`, so the `decoded <= 0` test catches only 0; a negative error passes, and `src_size` and `src` move by the wrapped value | a decoder returning -1 on a non-empty packet with room left | a decoder error ends decoding | high, not executed | A2dpSource.DecoderErrorAsWrittenContinues | A2dpSource.Fill |
| spa/plugins/audiomixer/audiomixer.c:529-542 | `recycle_buffer`, and the offer path at audiomixer.c:686, index the 64-entry buffer table with an id from the caller or from the peer's I/O slot without checking it | `reuse_buffer` on port 0 with buffer id 64 | an id outside the table is refused, as the A2DP source's `reuse_buffer` does | medium, not executed | AudioMixer.OutOfRangeIdAsWritten | AudioMixer.Recycle |
| spa/plugins/audiomixer/audiomixer.c:471-490 | `use_buffers` copies `n_buffers` entries into the 64-entry buffer table without comparing `n_buffers` with its size, and the port advertises no limit on the buffer count | `use_buffers` on an output port with a format, given 65 buffers with mapped memory | more buffers than the table holds are refused with INVALID_ARGUMENTS before anything is cleared | medium, not executed | AudioMixer.UseBuffersOverrunAsWritten | AudioMixer.UseBuffersOn |
| spa/plugins/bluez5/a2dp-source.c:663-672 | `clear_buffers` empties the free and ready lists only when `n_buffers > 0`, but a `use_buffers` that fails at buffer k (a2dp-source.c:762-766) leaves buffers 0..k-1 on the free list with `n_buffers` still 0 | `use_buffers` on output port 0 with a format, given a mapped buffer 0 and an unmapped buffer 1, then `use_buffers` with buffer 0 alone | clearing always empties both lists, as for the mixer | high, not executed | A2dpSource.UseBuffersAsWrittenFreesTwice | A2dpSource.Cleared |
