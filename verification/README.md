# A verified model of Packter's data path

Packter shows network traffic as it happens. C agents turn packets and flow exports into text records
and send them over UDP; a Rust broker authenticates, parses, monitors, stores and fans them out; a
browser decodes the broker's frames and indexes the events. This project models that path in Dafny and
proves what each stage owes the next. What the programs change in place is a class or an array with
`modifies` clauses; each such method is proved against a function of its inputs and old state, and the
laws of that function are lemmas.

- **Fan-out** (`Ring.dfy`, `Fanout.dfy`). The batcher's count, send and commit are separate steps, so
  every interleaving with a joining client is a run. `Fanout.ExactDelivery` counts, for every run, the
  copies of a committed event that reach the client. The comment at `broker/src/main.rs:298` says that
  subscribing before the snapshot misses no live frame; the send at line 376 comes before the ring push
  at line 391, so it can. `Fanout.LiveFrameMissed` is such a run and `Fanout.LateJoiner` says exactly
  when an event is missed and when it comes twice.
- **Send path to parse path** (`Text.dfy`, `Hexadecimal.dfy`, `Send.dfy`, `SendLaws.dfy`, `Auth.dfy`,
  `Parse.dfy`, `Mesg.dfy`, `EndToEnd.dfy`, `Signing.dfy`). Batching, rate limiting, signing, peeling, parsing and
  gating together mean what parsing each message alone means (`EndToEnd.EndToEnd`). The MAC is a
  parameter there; `Signing` supplies the HMAC-SHA-256 of `Sha256.dfy`. A record too long for the
  agent's 1023-octet buffer loses its newline and swallows its successor (`Mesg.CutSwallowsNext`). The
  replay window is tested on 64-bit integers: a stamp 2^63 s in the past passes too
  (`Auth.FreshIff`, `Auth.StaleAccepted`). A digest that is sliced inside a character makes the broker
  panic (`Auth.PanicsIff`, `Auth.PeelPanicsIff`).
- **Flow exports** (`FlowRecords.dfy`, `FlowRoundTrip.dfy`, `FlowReaders.dfy`, `FlowMessages.dfy`). The NetFlow v9 (section 5
  of RFC 3954) and IPFIX (sections 3.2 to 3.4 of RFC 7011) decoders: an abstract exporter's flows are
  emitted exactly, and the two readers agree.
- **Monitor** (`Ewma.dfy`, `Detector.dfy`, `DetectorLaws.dfy`, `DetectorC.dfy`). CUSUM against Page's
  closed form, EWMA as a weighted distribution, no false alarms on bounded traffic, and the agreement of
  the broker's monitor with the agent's. The comment at `broker/src/thmon.rs:299` says every metric that
  fired is frozen; RST owns no baseline, so a FIN/RST ratio that fires RST alone is learnt
  (`DetectorLaws.RstFreezesIffFin`, `DetectorLaws.RstAlarmIsLearnt`).
- **Hashes** (`Padding.dfy`, `Sha256.dfy`, `Md5.dfy`). The block loops and hand-built tails
  against FIPS 180-4, RFC 1321 and RFC 2104, for messages of every length.
- **Codecs and indexes** (`Wrappers.dfy`, `Sequences.dfy`, `Bytes.dfy`, `Frame.dfy`, `Json.dfy`,
  `Replay.dfy`, `Viewer.dfy`, `Capture.dfy`, `CaptureLaws.dfy`, `FrameToEvent.dfy`). Fly frames, JSON controls, the text dump and its
  replay, the viewer's event window, the IPv6 extension-header walk, the sFlow re-entry guard, and the way
  from a captured frame to the broker's event. The sFlow reader takes word 11 of a sample for the length
  of the sampled header; section 5 of RFC 3176 puts the packet's length there and the header's in word 12
  (`CaptureLaws.SflowIff`). The dump of a datagram without a final newline hides the stamp behind it
  (`Replay.DumpRoundTrip`, `Replay.SoundCommandGlued`).

Numbers that the programs compute in floating point are reals. Times, random numbers and received
octets are inputs. `hide` statements only keep definitions out of proofs that do not need them.

## Model

| member | source | states |
|---|---|---|
| Ring.Batcher.Push | broker/src/main.rs:400-409 | a fly event joins the end of the batch with the time of its arrival |
| Ring.Batcher.Commit | broker/src/main.rs:388-396 | the batch is drained into the ring in order, then the front is popped while the ring is over the cap or its front is older than the cutoff |
| Ring.RingIsLongestSuffix | broker/src/main.rs:388-396 | with a monotone clock, after every commit the ring is sorted and exactly the longest suffix of all committed events within the cap and no older than the cutoff |
| Ring.LongestIsLongest | broker/src/main.rs:393-396 | no earlier start of the committed events would still qualify |
| Ring.LongestMember | broker/src/main.rs:393-396 | of sorted entries one is held exactly when at most the cap follow from it on and it is no older than the cutoff |
| Ring.NeverReadmitted | broker/src/main.rs:390-396 | an event once dropped never returns: the oldest index held never decreases |
| Fanout.Reachable | broker/src/main.rs:297-397 | in every interleaving the ring is a suffix of what was committed, the batches tile it, the frames forwarded and queued are those of the live batches, and the backfill is the ring at the snapshot |
| Fanout.RunCommits | broker/src/main.rs:388-396 | in every interleaving the ring is that of the run's commits, whose clock and event times never run backwards |
| Fanout.HeldIff | broker/src/main.rs:319-335 | whether the ring still held an event at the snapshot is decided by clock and cap at the last commit before it |
| Fanout.ExactDelivery | broker/src/main.rs:297-397 | over every run a committed event reaches the client once for its live frame, if sent while subscribed, plus once in the backfill, if pushed before the snapshot and, at the last commit before it, within the cap and no older than the cutoff; never otherwise |
| Fanout.LateJoiner | broker/src/main.rs:297-397 | an event that the last commit before the snapshot kept is missed only if subscribe and snapshot both fall between its batch's count and its push; it arrives twice exactly when subscribe precedes the send and the snapshot follows the push |
| Fanout.LiveFrameMissed | broker/src/main.rs:298-321 | a concrete run in which the client subscribes before the snapshot and still never sees a sent event |
| Send.DiffsAreElapsed | agent/lib/util.c:18-47 | the two differences together are the elapsed microseconds, and zero when the clock ran backwards |
| Send.Rate | agent/lib/util.c:10-16 | a drawn rate lies in 1..limit, and is 1 for a limit below 1 |
| Send.Sender.Emit | agent/lib/send.c:83-118 | one datagram goes out: the agent line, when there is an id, and the message |
| Send.Sender.FlushBuffer | agent/lib/send.c:120-133 | the buffer goes out under one header, or nothing if it is empty, and is then empty |
| Send.Sender.SendMessage | agent/lib/send.c:149-193 | counter, buffer, its opening time and what is sent are those of the step function, on every branch; the buffer never exceeds 1320 octets |
| SendLaws.StepConserves | agent/lib/send.c:149-193 | one step's output and buffer, headers removed, are the old buffer and the message it let through |
| SendLaws.BulkConserves | agent/lib/send.c:120-193 | over every run, the emitted messages without headers followed by the buffer are exactly the messages let through, in order |
| SendLaws.BulkBounded | agent/lib/send.c:120-193 | the buffer is at most 1320 octets, and a datagram is at most 1328 octets or a message sent as it came |
| SendLaws.LineSize | agent/lib/send.c:53-81 | a signed line with a ten-digit time takes at most 90 octets more than the id |
| SendLaws.TextSize | agent/lib/send.c:60-72 | the text under the MAC takes at most 12 octets more than id and payload |
| SendLaws.SignedBulkFits | agent/lib/send.c:60-92 | a signed bulk datagram is at most 1328 + 90 + the id's octets, so neither the line buffer nor the MAC buffer truncates it |
| SendLaws.RateInRange | agent/lib/send.c:149-158 | the countdown stays in 1..limit over every run |
| SendLaws.CountdownPasses | agent/lib/send.c:149-158 | the message the countdown reaches passes and none before it, flushes or not |
| SendLaws.OneInLimit | agent/lib/send.c:149-158 | from any such state any rate_limit consecutive messages, however many flushes come between them, include one that passes |
| Auth.AgentDirectory.AddBoard | broker/src/auth.rs:42-44 | the id's board is set, other boards are kept |
| Auth.AgentDirectory.AddKey | broker/src/auth.rs:46-48 | the id's key is set, other keys are kept |
| Auth.AgentDirectory.Peel | broker/src/auth.rs:64-112 | the verdict, with its reason, is that of the specification on every branch, 64-bit wrap-around of the timestamp difference and panics of the decoder included, and the directory is unchanged |
| Auth.HexDecode32 | broker/src/auth.rs:115-124 | a text of 64 octets gives 32 octets if its pairs are digits, of which the first may be a plus; nothing at the first pair that is not; and a panic at the first pair that ends inside a character |
| Auth.PanicsIff | broker/src/auth.rs:115-124 | the decoder panics exactly on the texts of 64 octets that have, behind good pairs only, two octets that end inside a character |
| Auth.PeelPanicsIff | broker/src/auth.rs:64-112 | peeling panics exactly on a keyed id's line of three fields with a timestamp in the window and such a third field, before any MAC is looked at |
| Auth.StraddledPanics | broker/src/auth.rs:115-124 | such a line exists for every keyed id and timely stamp, and needs no key |
| Auth.CtEq | broker/src/auth.rs:126-135 | the constant-time comparison answers equality |
| Auth.HexRoundTrip | agent/lib/send.c:74-77 | decoding undoes the agent's encoding, whose text holds no comma, space or newline |
| Auth.FreshIff | broker/src/auth.rs:92-94 | for every 64-bit clock and timestamp the window test passes exactly when they are within 300 s, exactly 2^63 s apart, or at least 2^64 - 300 s apart, where the difference wraps |
| Auth.TimelyNow | broker/src/auth.rs:92-94 | short of the last 300 s of the clock's range that is within 300 s or exactly 2^63 s in the past |
| Auth.UnsignedPeels | broker/src/auth.rs:64-88 | an agent line without a key gives back the payload, the id and its board, not authenticated |
| Auth.SignedPeels | broker/src/auth.rs:64-112 | a signed datagram never panics and is accepted exactly when its time is timely (within 300 s, or where the difference wraps) and the agent's MAC of the first 2048 octets is the MAC of the whole; then the exact payload comes back, authenticated |
| Auth.ShortSignedPeels | broker/src/auth.rs:64-112 | up to 2048 octets of signed text it is accepted exactly when its time is timely |
| Auth.StaleAccepted | broker/src/auth.rs:92-94 | a correctly signed datagram stamped 2^63 s before the broker's clock is accepted |
| Auth.AuthedHasMac | broker/src/auth.rs:64-112 | whatever is accepted as authenticated has a timely stamp and carries a MAC under a configured key over its own id, time and payload |
| Signing.AgentDigest | agent/lib/sha256.c:93-129 | the agent's routine computes the MAC the broker checks, cut at 2048 octets |
| Signing.WordsRoundTrip | agent/lib/send.c:72-77 | nothing of a digest is lost on the way to its octets |
| Signing.StandardIsHash32 | agent/lib/sha256.c:93-129 | HMAC-SHA-256 is a MAC of 32 octets, as authentication assumes |
| Signing.SignedDatagramPeels | broker/src/auth.rs:64-112 | with the real HMAC a datagram of at most 2048 octets is accepted exactly when its stamp is timely, and yields its exact payload, authenticated |
| Parse.ParseLine | broker/src/parse.rs:57-98 | one line's items, the mode after it and whether it ends the datagram, on every branch |
| Parse.ParseDatagram | broker/src/parse.rs:49-101 | the loop yields the items of the whole text, in order |
| Parse.RecordThen | broker/src/parse.rs:49-101 | in record mode a record line is read alone and what follows it as before |
| Parse.LinesParse | broker/src/parse.rs:49-101 | in record mode newline-terminated records yield the concatenation of what each yields |
| Parse.BulkParses | broker/src/parse.rs:49-101 | a bulk datagram means, in order, what its records mean one by one |
| Parse.PortReads | broker/src/parse.rs:185-203 | every port n below 65536 reads as n/65536, 0 and 1 included |
| Parse.RecordMeans | broker/src/parse.rs:135-166 | both addresses, both ports, the flag and the description, commas included, of an agent's record are recovered |
| Text.PrintedReads | agent/lib/send.c:66-80 | a printed 64-bit integer reads back as itself |
| Mesg.PackterMesg | agent/lib/mesg.c:10-44 | the octets of the record, geographic or not, traced or not, cut to the 1023 of the message buffer |
| Mesg.PrintedMeans | agent/lib/mesg.c:35-43 | a record within its buffer reads back as its addresses, ports, flag plus flag base and description with the trace server; the broker drops it exactly when flag plus flag base is negative |
| Mesg.GoodIffFits | agent/lib/mesg.c:35-43 | the printed message ends its record with a newline exactly when the record fits the buffer |
| Mesg.PrintedIsText | broker/src/main.rs:443-443 | what is printed is the text of its whole characters when cut between two; otherwise no datagram it is batched in is a text, whatever stands before and behind it, and the broker drops it whole |
| Text.CutIsNoText | broker/src/main.rs:443-443 | a text cut inside a character and followed by any other text is no text |
| Mesg.CutSwallowsNext | agent/lib/mesg.c:35-43 | a cut record spoils the record batched behind it: cut between characters the two are read as one line, so at most one event arrives and the batch does not mean the two; cut inside a character the batch is no text and nothing is read |
| Mesg.LongServerCuts | agent/lib/mesg.c:35-38 | with a trace server name of at least 1004 octets every record is cut |
| EndToEnd.Ingest.Datagram | broker/src/main.rs:444-489 | a datagram queues its caption, if new for its board, then its gated items; rejected and, in strict mode, unmapped ones queue nothing; one on which peeling panics ends ingestion |
| EndToEnd.Ingest.Announce | broker/src/main.rs:466-472 | a board's caption is queued and remembered when it changes |
| EndToEnd.Ingest.Enqueue | broker/src/main.rs:474-489 | flies take the sender's board and controls pass only when allowed, in order |
| EndToEnd.ControlsGated | broker/src/main.rs:464-486 | once keys are configured a control enters the queue only from a timely datagram with a valid MAC |
| EndToEnd.StepMeans | agent/lib/send.c:149-193 | what one step emits and keeps means what it held and the message it let through |
| EndToEnd.BatchingKeepsMeaning | agent/lib/send.c:120-193 | over every run, parsing the emitted payloads and then the buffer gives what parsing each passed message alone gives, in order |
| EndToEnd.OneReceived | broker/src/main.rs:444-489 | a delivered signed datagram does not panic and queues exactly its parsed payload, on the agent's board, controls included |
| EndToEnd.EndToEnd | broker/src/main.rs:444-489 | for every run, flush schedule and clock, what the broker queues from the signed datagrams followed by what is still buffered is what each passed message means alone, in order |
| EndToEnd.SizesDeliver | agent/lib/send.c:60-92 | every datagram of a run of messages of at most 1023 octets fits the MAC buffer, as delivery assumes |
| FlowRecords.Collector.TemplateSet | agent/lib/nf_common.c:16-102 | the cache gains the scanned layout of the set's first template |
| FlowRecords.Collector.FlowSet | agent/lib/nf_common.c:104-221 | the output gains the flows of the set's whole records in order, when the template is known and usable |
| FlowRoundTrip.ScanIsLayout | agent/lib/nf_common.c:51-101 | each offset scanned from fixed-length fields is the sum of the lengths before the last field of its kind, and the record length is their sum |
| FlowRoundTrip.TemplateLearnt | agent/lib/nf_common.c:16-102 | a template set leaves its first template's layout in the cache, enterprise fields and trailing octets included |
| FlowRoundTrip.VariableLengthIgnored | agent/lib/nf_common.c:51-101 | a template with a variable-length field emits nothing |
| FlowRoundTrip.FieldAt | agent/lib/nf_common.c:132-168 | each field's value sits at the prefix sum of the lengths before it, inside the record |
| FlowRoundTrip.RecordRoundTrip | agent/lib/nf_common.c:135-213 | a record decoded at the template's offsets gives the flow its exporter meant, or nothing if the template lacks what its protocol needs |
| FlowRoundTrip.ControlBitsIff | agent/lib/nf_common.c:171-175 | the emitted TCP flag is that of the control bits' low octet exactly when the field has one octet or the high octet says the same |
| FlowRoundTrip.WideSynLost | agent/lib/nf_common.c:171-175 | a SYN in a field of two octets is emitted as if no flag were set |
| FlowRoundTrip.RecordsRoundTrip | agent/lib/nf_common.c:135-219 | records in a row give their flows in order, and padding shorter than a record adds nothing |
| FlowRoundTrip.FlowExportRoundTrip | agent/lib/nf_common.c:16-221 | for every fixed-length template of one address family, fields in any order and unknown ones between, template set then data set emit exactly the exported flows |
| FlowMessages.V9Export | agent/lib/netflow.c:28-73 | a whole v9 message of a template and any data sets under it emits exactly the exported flows, in order, and leaves the template in the cache |
| FlowMessages.IpfixExport | agent/lib/ipfix.c:29-82 | so does a whole IPFIX message |
| FlowMessages.LaterData | agent/lib/netflow.c:28-73 | data sets of a later message are decoded by the template an earlier one left |
| FlowReaders.NetflowRead | agent/lib/netflow.c:28-73 | the v9 reader's cache and output are those of its sets applied in order |
| FlowReaders.IpfixRead | agent/lib/ipfix.c:29-82 | the IPFIX reader's, after shortening to the declared length |
| FlowReaders.SplitSets | agent/lib/netflow.c:50-72 | every set visited has its declared length and at least a header |
| FlowReaders.SplitCovers | agent/lib/netflow.c:50-72 | the sets visited and the rest make up the body, and the rest starts no set |
| FlowReaders.LongestPrefix | agent/lib/ipfix.c:59-81 | any well-formed sets that begin the body are visited, so the walk takes the longest such prefix |
| FlowReaders.MappedSet | agent/lib/ipfix.c:59-81 | one v9 set and its IPFIX form have the same effect |
| FlowReaders.ReadersAgree | agent/lib/ipfix.c:29-82 | for any body, truncated ones too, a v9 message and the IPFIX message with the same sets leave equal caches and emit equal records |
| Ewma.Cell.Update | broker/src/thmon.rs:136-146 | one observation moves mean and variance, or starts them |
| Ewma.WeightsDistribute | broker/src/thmon.rs:136-146 | for a smoothing factor in [0, 1] the weights of past observations are not negative and sum to one |
| Ewma.UpdateStep | broker/src/thmon.rs:136-146 | an update keeps the variance the mean of squares less the squared mean |
| Ewma.WeightedReading | broker/src/thmon.rs:136-146 | mean is the weighted mean of all observations, variance the weighted mean of squares less its square |
| Ewma.BoundedObservations | broker/src/thmon.rs:136-146 | observations in [lo, hi] keep mean there and 0 <= variance <= (hi - mean)(mean - lo) |
| Detector.Thmon.OnFlag | broker/src/thmon.rs:194-212 | a flag is tallied; a full window is judged once and the counts restart |
| Detector.Thmon.Analyze | broker/src/thmon.rs:214-321 | the classes fired, in order, the new baselines and CUSUM, and whether the alert passes the cooldown |
| Detector.Thmon.Judge | broker/src/thmon.rs:231-286 | every chart and cap in the program's order gives each class at most once |
| Detector.Thmon.JudgeTcp | broker/src/thmon.rs:231-256 | the SYN and FIN charts and caps and the RST cap |
| Detector.Thmon.SynChart | broker/src/thmon.rs:231-242 | the CUSUM step, its reset on alarm, and the SYN cap |
| Detector.Thmon.Band | broker/src/thmon.rs:244-286 | a control-chart band followed by its hard cap |
| Detector.Thmon.Learn | broker/src/thmon.rs:299-316 | every baseline whose class did not fire learns the window, the others are unchanged |
| Detector.FiredIff | broker/src/thmon.rs:381-383 | a class is named in the list exactly when its chart or cap fired |
| DetectorLaws.PageClosedForm | broker/src/thmon.rs:231-239 | cusum_g is always the larger of zero and the largest suffix sum of increments since the last alarm |
| DetectorLaws.PageAlarm | broker/src/thmon.rs:231-239 | the alarm comes exactly when some run of consecutive windows since the last alarm sums above cusum_h |
| DetectorLaws.DetectionDelay | broker/src/thmon.rs:231-239 | a shift of at least delta a window is flagged within floor(h/delta) + 1 windows |
| DetectorLaws.BaselineIsFold | broker/src/thmon.rs:299-316 | over any run each baseline is the fold of exactly the observations whose own class did not fire |
| DetectorLaws.BaselineWithin | broker/src/thmon.rs:136-146 | a metric observed in [lo, hi] has its baseline's mean and variance in the matching ranges |
| DetectorLaws.RatioBandQuiet | broker/src/thmon.rs:244-276 | a ratio in an interval no wider than ewma_k * 0.02 never fires its band |
| DetectorLaws.RateBandQuiet | broker/src/thmon.rs:278-286 | a packet rate in an interval no wider than ewma_k * max(lo/4, 1) never fires its band |
| DetectorLaws.ImbalanceQuiet | broker/src/thmon.rs:231-239 | an imbalance in an interval no wider than cusum_k * 0.02 keeps cusum_g at zero for ever |
| DetectorLaws.RstFreezesIffFin | broker/src/thmon.rs:254-307 | a window that fires RST leaves the FIN/RST baseline alone exactly when FIN fires too |
| DetectorLaws.RstAlarmIsLearnt | broker/src/thmon.rs:254-307 | a concrete window fires RST alone and is learnt |
| DetectorC.PtThmon.Analyze | agent/src/pt_thmon.c:179-314 | the agent's monitor judges a window and adapts its seven baselines and its CUSUM |
| DetectorC.PtThmon.Judge | agent/src/pt_thmon.c:217-263 | every chart and cap of the agent's monitor |
| DetectorC.PtThmon.SynChart | agent/src/pt_thmon.c:217-232 | its CUSUM step, reset and SYN cap |
| DetectorC.PtThmon.Band | agent/src/pt_thmon.c:234-263 | one band and its hard cap |
| DetectorC.PtThmon.Learn | agent/src/pt_thmon.c:307-314 | every baseline whose class did not fire learns the window |
| DetectorC.WindowAgrees | agent/src/pt_thmon.c:179-314 | equal states and RST-free counts over at least a second give equal states and the same classes |
| DetectorC.CountsAgree | agent/src/pt_thmon.c:341-406 | of recorded packets the monitors count alike exactly the IPv4 ones and IPv6 segments without SYN, FIN or RST |
| DetectorC.StepAgrees | agent/src/pt_thmon.c:341-406 | one packet keeps the two monitors in agreement exactly when they count it alike, or it closes a window and both come out in the same state |
| DetectorC.MonitorsAgree | agent/src/pt_thmon.c:179-406 | over every run of packets they count alike both monitors hold equal baselines and CUSUM and fire the same classes in every window |
| DetectorC.MonitorsAgreeIff | agent/src/pt_thmon.c:373-406 | whatever the packets, IPv6 and other protocols among them, they agree all along exactly when each packet is counted alike or, closing a window, leaves both in the same state |
| Padding.LeastPadding | agent/lib/sha256.c:60-91 | the zero padding is the least both standards allow |
| Padding.LengthValue | agent/lib/sha256.c:60-91 | the length octets are the base-256 digits of the length modulo 2^(8k) |
| Padding.WrappedCounter | agent/lib/sha256.c:60-91 | the 64-bit counter's octets are those of the true bit length, wrap-around included |
| Padding.BuildTail | agent/lib/sha256.c:60-91 | the hand-built 64- or 128-octet tail is the message's rest with its padding |
| Padding.PutLength | agent/lib/sha256.c:60-91 | the length octets go to the tail's end in the order asked for, and nothing else changes |
| Sha256.RotatesAreRotates | agent/lib/sha256.c:31-58 | the shift-and-or is a rotation for every distance used |
| Sha256.Schedule | agent/lib/sha256.c:31-58 | the 64 words are the standard's message schedule |
| Sha256.RunRounds | agent/lib/sha256.c:31-58 | the register loop is the standard's 64 rounds |
| Sha256.Block256 | agent/lib/sha256.c:31-58 | one block takes the chaining value in place to its compression |
| Sha256.FullBlocks | agent/lib/sha256.c:60-91 | the full blocks are compressed and less than a block is left |
| Sha256.TailBlocks | agent/lib/sha256.c:60-91 | the tail processes exactly the rest of the padded message |
| Sha256.PtSha256 | agent/lib/sha256.c:60-91 | the digest is SHA-256 of the message, for every length |
| Sha256.LoadKey | agent/lib/sha256.c:93-107 | the key block is the key, or its hash if longer than a block, padded with zeros |
| Sha256.PtHmacSha256 | agent/lib/sha256.c:93-129 | the digest is HMAC-SHA-256 of the first 2048 octets, so of every message up to that length |
| Md5.WordIndex | agent/lib/md5.c:38-59 | the computed word index is the operation table's, for all 64 operations |
| Md5.ShiftTable | agent/lib/md5.c:12-36 | the shift table is the operation table's |
| Md5.MixAgrees | agent/lib/md5.c:38-59 | the code's four mixing functions are F, G, H and I |
| Md5.TurnStep | agent/lib/md5.c:38-59 | rotating the four registers once is one operation of the standard |
| Md5.Rounds | agent/lib/md5.c:38-59 | the loop performs the 64 operations in order |
| Md5.Md5Block | agent/lib/md5.c:38-59 | one block takes the chaining value in place to its compression |
| Md5.FullBlocks | agent/lib/md5.c:61-89 | the full blocks are compressed and less than a block is left |
| Md5.TailBlocks | agent/lib/md5.c:61-89 | the tail processes exactly the rest of the padded message |
| Md5.PtMd5 | agent/lib/md5.c:61-89 | the digest is MD5 of the message, for every length |
| Frame.EncodeFlyFrame | broker/src/wire.rs:16-37 | the buffer is the header, the 32-bit count and each event's octets in order |
| Frame.AppendEvent | broker/src/wire.rs:22-35 | one event's fields are appended in wire order, the description cut to 255 octets |
| Frame.OnMessage | web/main.js:662-683 | the viewer's decoder, with what it has pushed when a read past the end throws |
| Frame.EventRoundTrip | web/main.js:667-682 | an encoded event decodes to what survives of it, whatever follows |
| Frame.FrameRoundTrip | web/main.js:662-683 | a frame decodes to every event in order and ends exactly at its end |
| Frame.FaithfulIff | broker/src/wire.rs:16-37 | age, flag and description survive exactly below 2^31, below 2^16 and up to 255 octets; the other fields always |
| Frame.Backfill | broker/src/main.rs:319-335 | decoding the 4096-event chunks in order gives the whole ring, and each chunk is the frame of its part |
| Json.JsonEscape | broker/src/wire.rs:39-53 | the loop appends each character's escape |
| Json.EscapeRoundTrip | broker/src/wire.rs:39-53 | unescaping (section 7 of RFC 8259) an escaped string, wherever it stands, gives it back |
| Json.EscapedIsSealed | broker/src/wire.rs:39-53 | escaped text holds no control character and no bare quote |
| Json.ControlRoundTrip | broker/src/wire.rs:55-66 | every control, whatever its texts, reads back as itself |
| Replay.Dumper.Emit | agent/lib/send.c:98-105 | in dump mode the output gains a stamp line and the datagram |
| Replay.Player.Run | agent/src/pt_replay.c:30-72 | what a replay sends and how long it sleeps is that of playing the file's reads in order |
| Replay.Player.One | agent/src/pt_replay.c:44-67 | one read: the first stamp, a later stamp or text, with the early send when the buffer is full |
| Replay.StampReads | agent/src/pt_replay.c:45-45 | the stamp line the dump prints scans back to its time |
| Replay.SentAll | agent/src/pt_replay.c:44-70 | for every file, what is sent is in order exactly its text without the stamp lines, in datagrams that fit the buffer |
| Replay.DumpRoundTrip | agent/src/pt_replay.c:44-70 | replaying the dump of any datagrams sends the same datagrams exactly when none is empty, too long for the buffer or holds a read that looks like a stamp, and each but the last is closed |
| Replay.ClosedIff | agent/src/pt_replay.c:44-44 | a datagram is closed exactly when the octets after its last newline, if any, fill whole read buffers |
| Replay.SentSound | agent/src/pt_replay.c:44-70 | whatever the file, no datagram sent is empty, too long or holds a read that looks like a stamp, and all but the last are closed |
| Replay.SoundCommandGlued | agent/lib/send.c:195-200 | the sound command has no newline at its end, so with a datagram behind it the dump does not come back |
| Replay.ShortLinesWhole | agent/src/pt_replay.c:44-44 | lines of at most 1022 octets are read whole, so then only a line can look like a stamp |
| Replay.SleepsTelescope | agent/src/pt_replay.c:56-58 | the sleeps total last minus first in microseconds exactly when no gap reaches 2^32 |
| Replay.ReplaySendsAsIs | agent/lib/ctx.c:61-80 | under a replay's options each message leaves at once and unchanged |
| Viewer.Index.PushEvent | web/main.js:456-459 | the event joins the end; the index stays sorted exactly when the event is not older than the last |
| Viewer.Index.Receive | web/main.js:665-683 | every event of a frame joins the end at its reception time less its age |
| Viewer.ReceivedSorted | web/main.js:665-683 | received frames, backfill and queue alike, leave the index sorted exactly when none begins, on the viewer's clock, before the one before it ends |
| Viewer.RepeatedFrameUnsorted | web/main.js:665-683 | a queued frame that begins with an event older than the backfill's last, at the same delay, breaks the order |
| Viewer.Index.ClearEvents | web/main.js:461-464 | the index is empty and the cursor at its start |
| Viewer.Index.PruneRing | web/main.js:466-476 | events before the first young enough are dropped, then what exceeds the cap, sorted or not; the live cursor keeps its event or moves to the new start |
| Viewer.DropIsLeast | web/main.js:466-476 | on a sorted index exactly the longest suffix within window and cap stays |
| Viewer.Index.LowerBound | web/main.js:478-485 | an index with an event below the value before it and none below it at it; on a sorted index the first whose time is not below the value |
| Viewer.Index.UpdatePackets | web/main.js:859-899 | the events drawn are the first MAX_VISIBLE the sweep takes from the live cursor or from where the search ends; on a sorted index they are those brute force over all events would draw |
| Viewer.Index.Sweep | web/main.js:876-899 | the draw loop takes the first MAX_VISIBLE unhidden events up to the first that has not started |
| Viewer.SweptIsBrute | web/main.js:876-899 | on a sorted index, started behind landed events only, the sweep takes what brute force does |
| Viewer.DrawnMeaning | web/main.js:876-899 | drawn indices increase, are unhidden and in the window, and any left out comes after MAX_VISIBLE drawn ones |
| Capture.UpperLayer | agent/lib/proto.c:177-214 | the loop ends, and finds the protocol and an offset within the packet exactly when the recursive reading does |
| Capture.WalkIsChain | agent/lib/proto.c:177-214 | the walk reports protocol and offset exactly when the octets before it are a chain of the four headers of section 4 of RFC 8200 with something after it |
| Capture.WalkFindsChain | agent/lib/proto.c:177-214 | every encoded chain before a payload is stepped over whole |
| Capture.ChainIsThere | agent/lib/proto.c:177-214 | whatever the walk steps over is such a chain |
| Capture.Agent.EtherFrame | agent/lib/proto.c:255-291 | link layer with at most one VLAN tag, then the network layer; translation and its guard are as before the call |
| Capture.Agent.Ip4 | agent/lib/proto.c:135-174 | a malformed header gives nothing, else the segment after it is handled |
| Capture.Agent.Ip6 | agent/lib/proto.c:216-253 | the segment after the extension headers is handled |
| Capture.Agent.Transport | agent/lib/proto.c:135-174 | each transport gives its event, UDP possibly a translation |
| Capture.Agent.Udp | agent/lib/proto.c:81-116 | only an outer datagram is translated, and the guard is back to its value before |
| Capture.Agent.FlowDecode | agent/lib/collector.c:25-41 | a translated datagram yields what its decoder yields, with the guard kept |
| Capture.Agent.SflowExtensions | agent/lib/sflow.c:108-129 | known extension records are skipped, an unknown one stops the read |
| Capture.Agent.SflowRead | agent/lib/sflow.c:47-130 | the samples' frames re-enter the chain in order as plain events, and the cache is untouched |
| CaptureLaws.Frame4RoundTrip | agent/lib/proto.c:135-174 | an IPv4 frame, tagged or not and with any header options, reads back as its protocol, addresses and segment |
| CaptureLaws.Frame6RoundTrip | agent/lib/proto.c:177-253 | an IPv6 frame with any chain of the four extension headers reads back as its upper protocol, addresses and segment |
| CaptureLaws.UdpEvent | agent/lib/proto.c:81-116 | an untranslated UDP segment becomes one event with its ports and its family's flag |
| CaptureLaws.TcpEvent | agent/lib/proto.c:23-79 | a TCP segment becomes one event with its ports, SYN outranking FIN and RST in the flag |
| CaptureLaws.SflowIff | agent/lib/sflow.c:47-130 | an sFlow v4 datagram of raw-header flow samples gives its sampled headers, in order, exactly when every packet was sampled whole: the code reads the packet's length where the header's stands one word later |
| CaptureLaws.LongPacketLost | agent/lib/sflow.c:84-93 | a packet longer than the rest of the datagram loses its sample and every later one |
| CaptureLaws.UsualSampleLost | agent/lib/sflow.c:84-93 | a 1500-octet packet of which 128 octets are sampled gives nothing |
| CaptureLaws.TranslatedOnce | agent/lib/proto.c:98-108 | a captured sFlow datagram becomes the plain events of the frames read from it, which are its sampled headers exactly when every packet was sampled whole; inside another translation it is one plain event itself |
| FrameToEvent.CapturedFrame | agent/lib/proto.c:48-59 | every frame that gives a packet event gives the broker, once printed and parsed, exactly one event with its addresses, ports and flag plus flag base |
| FrameToEvent.DecodedFlow | agent/lib/nf_common.c:211-215 | so does every flow decoded from an export |
| FrameToEvent.UdpFrameToEvent | agent/lib/proto.c:81-175 | a UDP datagram in an IPv4 frame becomes the event with its two addresses, its ports and the UDP flag |
| Capture.SampledArePlain | agent/lib/proto.c:98-108 | nothing inside an sFlow datagram is translated again: at most one plain event a frame |

## Left out

- Rounding of IEEE floats: the monitor and the broker's coordinates use reals, frame coordinates are opaque four-octet values, infinities and NaN do not occur, and the square root is a non-negative parameter.
- Reading of IP literals and of numbers that are not plain digits: a parameter of the parser.
- Earth records: printed and parsed, but no lemma follows a coordinate text through the parser.
- Text of descriptions and alerts, trace hashes, Snort text, GeoIP data, sound messages and the EVE reader: strings without a law of their own.
- Sockets, pcap, timers, the record file, option parsing, the board rules for source addresses (a parameter), `map.c` and `config.c` (a Dafny map).
- Overflow of the broker's queue and a lagging broadcast receiver: do not happen in the model.
- Control and caption frames on the fan-out channel, client disconnects and the text frames before the backfill.
- Fanout.LateJoiner: is about one client; other receivers only join and leave.
- Ring.RingIsLongestSuffix: assumes a clock that does not run backwards.
- Viewer.Index.UpdatePackets: assumes live frames with nondecreasing times; drawing itself is not part of this model.
- Detector.Thmon.Analyze: its body is split into helper methods, and the values printed in alerts are not part of this model.
- DetectorC.MonitorsAgree: the C monitor floors a window at one second and the Rust one at a millisecond, so windows of at least a second are assumed; IPv4 RST must be absent because the C monitor keeps a baseline for it; packets too short for their headers are not among the packets.
- FlowRoundTrip.FlowExportRoundTrip: puts one template in each set, because the decoder reads only the first. ICMPv6 type and code in IPFIX element 139 is an unknown field to the decoder, so such flows give nothing.
- FlowReaders.ReadersAgree: excludes ids 2 and 3 in v9, which the mapping gives a meaning they do not have there, and field types with the 0x8000 bit.
- Capture.Agent.SflowRead: offsets are unbounded, which is exact for datagrams of at most 64 KiB.
- CaptureLaws.SflowIff: raw-header flow samples only, with an IPv4 agent address and IPv4 next hops; gateway records, which section 5 of RFC 3176 makes variable in length, have the 20 octets that the code skips. Counter samples and sampled IPv4 or IPv6 headers are not part of this model.
- Auth.CtEq: counts differing octets where the original accumulates their bits.
- Auth.SignedPeels: beyond 2048 octets says that acceptance needs two MACs to be equal, not that they differ; arithmetic wraps as in a release build, where a debug build would panic.
- Send.Sender.Emit: requires a message of at most 16383 octets, the longest any caller builds, so the copy into the datagram buffer is never cut.
- Send.Sender.SendMessage: speaks of messages that are texts; one cut inside a character is none (Mesg.PrintedIsText).
- EndToEnd.EndToEnd: datagrams arrive in order, none lost; a record's line starts with a character other than P and holds no newline.
- Replay.Player.Run: a stamp's numbers are unbounded; one character stands for one octet.
- Json.ControlRoundTrip: the reader of the model does not read surrogate-pair escapes, which the encoder never writes.
- Sha256.PtSha256: the constants of the tables are those of FIPS 180-4, and those of MD5 are RFC 1321's.
- Linux cooked, loopback and other capture framings.
