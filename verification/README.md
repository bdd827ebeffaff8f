# SmartSDR DAXIQ client — a Dafny model

This project models the protocol core of a Python client for FlexRadio
SmartSDR radios that receives DAX IQ sample streams. The model covers five parts:

- **Discovery.** One UDP broadcast on port 4992. The first reply whose
  VITA-49 header carries the FlexRadio class identifier (OUI `0x001c2d`,
  packet class `0xffff`) is parsed into a `FlexRadio` record from its
  `key=value` text.
- **Command channel.** The framed TCP protocol on port 4992. Commands go out
  as `C<seq>|<command>`. Replies come back as `R<seq>|<hex status>|<message>`
  and are matched to the waiting command by sequence number. `S` and `V`
  status lines are passed on, and the GUI-client table is captured from
  them. The channel also counts unmapped error codes and applies the
  timeout rule.
- **Stream setup.** The negotiation over that channel:
  - subscribe to panadapters, with a fallback spelling;
  - pick a panadapter;
  - `dax iq set`;
  - `stream create`, whose reply is read as the stream id;
  - `sub pan`;
  - tune the slice.

  Throughout, a status monitor tracks stream, slice and panadapter status
  lines. Teardown removes the stream.
- **Packet receiver.** The VITA-49 decoder for IQ packets. It covers every
  optional field, Python slice clipping of the payload, and the exact
  treatment of odd word counts. Around it sit the receive loop's stream-id
  filter, the 4-bit sequence-gap accounting and the bounded queue with its
  drop counter.
- **Session director.** `start`/`stop` of the client. It resolves the radio,
  learns the GUI clients, chooses the client id to bind to, binds, sets up
  the stream and starts the receiver. `stop` releases what `start` acquired,
  in reverse order.

The legacy single-file client (`flex_client.py`) is modelled by its
differences from the package:
- its discovery record;
- the text of its command errors;
- its status monitor, which accepts panadapter 0;
- its setup, which creates its own panadapter, sets the sample rate and
  re-centres the panadapter;
- its teardown, which also removes the panadapter it created.

The legacy VITA receiver's decoding text is the same as the package's, and
`Vita.Decode` covers both.

Modules, leaves first:
- `Base`, `Wire`, `Text`, `Models`: the Python library behaviour the
  core relies on. This includes `str.split`, `strip`, `int(x, 16)`, `float`,
  slicing and `struct` big- and little-endian words.
- `KeyValue`, `Lines`: shared `key=value` parsing and the line splitter.
- `Vita`, `Receiver`, `StatusCodes`, `Clients`, `Channel`, `Exchange`:
  the packet and channel layers.
- `Discovery`, `Monitor`, `Setup`, `Director`, `Legacy`: the layers built on
  those.

Effects become data:
- A radio answering commands is `Exchange.Radio`, a script of replies. A
  missing reply is a timeout.
- Status lines that arrive during setup are explicit sequences.
  - `burst` holds the lines that arrive during the grace pause after
    subscribing.
  - `later` holds the lines that arrive after the stream is created.
- Datagrams are byte sequences, and the local IP and UDP port are
  parameters.

Where the prose description of the system and the code differ, the model
follows the code:
- **Odd payload word counts.** The decoder does not simply restrict itself
  to even counts. With exactly 3 payload words it yields two samples, the
  second reusing word 1 as Q, because NumPy broadcasts a length-1 array.
  Any other odd count of 5 or more makes NumPy raise, and the receive loop
  drops the datagram.
- **A `0x` prefix on hex fields.** `int(x, 16)` accepts it, so stream and
  panadapter ids written as `0x…` parse.

## Model

| member | source | states |
|---|---|---|
| Wire.BE32At | flexclient/vita.py:100 | a big-endian word written at an offset is read back by the `>I` unpack there |
| Wire.LE32At | flexclient/vita.py:156 | a little-endian float32 word written at an offset is read back by the `<f` view of the payload |
| Wire.BE64At | flexclient/vita.py:137-140 | a big-endian 64-bit word written at an offset is read back by the `>Q` unpack |
| Text.WordsOfJoinSpace | flexclient/setup.py:348 | `str.split()` of space-joined non-empty tokens without whitespace gives back exactly those tokens |
| Text.JoinSplitChar | flexclient/discovery.py:97-98 | joining the pieces of `s.split(c)` with `c` rebuilds `s` |
| Text.SplitJoinChar | flexclient/discovery.py:97-98 | splitting a `c`-join of pieces free of `c` gives back the pieces |
| Text.DecimalRoundTrip | flexclient/tcp_client.py:147 | `int()` reads back every decimal sequence number the client formats |
| Text.HexRoundTrip | flexclient/tcp_client.py:148 | `int(x, 16)` reads back every hex rendering of a number, padded or not |
| Text.PrefixedHexRoundTrip | flexclient/setup.py:220 | `int(x, 16)` also reads back `0x`-prefixed hex, so `0x…` ids parse |
| Text.IntRoundTrip | flexclient/client.py:50 | `int()` reads back every signed decimal |
| Text.ParseRealOfDecimal | flexclient/setup.py:356 | `float()` of a whole decimal number is that number |
| Text.StrLessTotal | flexclient/tcp_client.py:57 | Python string order is total: of two different strings one is less |
| Text.StrLessTransitive | flexclient/tcp_client.py:57 | Python string order is transitive, so the sort key is a strict order |
| Text.FindSub | flexclient/tcp_client.py:189-190 | the substring test finds an occurrence exactly when there is one, and the position it reports is the first occurrence |
| Text.SplitOnceAt | flexclient/tcp_client.py:178 | `split('\|', 1)` cuts at the first separator and keeps the remainder whole |
| Text.StripNoSpace | flexclient/tcp_client.py:186 | `strip()` leaves a string without whitespace unchanged |
| Vita.HeaderRoundTrip | flexclient/vita.py:100-107 | every header field packed into a word is sliced back out by the decoder's shifts and masks |
| Vita.HeaderWordOfParse | flexclient/vita.py:100-107 | the parsed fields rebuild the header word except bits 25-24, which the decoder ignores |
| Vita.PySliceInRange | flexclient/vita.py:146-149 | the payload slice is the plain subsequence in range, clipped to the end past it, and counted from the end for a negative stop |
| Vita.PairsAt | flexclient/vita.py:156-164 | sample k pairs I = float word 2k with Q = word 2k+1 of the payload |
| Vita.EvenPayloadSamples | flexclient/vita.py:151-164 | an even payload word count of n >= 2 gives n/2 samples, each the I/Q word pair at its place |
| Vita.Decode | flexclient/vita.py:86-172 | fewer than 8 bytes is no packet; a packet has at least one sample, the stream id of word 1 and the header's sequence number |
| Vita.DecodeShape | flexclient/vita.py:86-172 | a packet exists exactly when the optional fields fit and the sliced payload yields samples; the timestamps are zero when absent and otherwise the words at their offsets |
| Vita.PayloadClipping | flexclient/vita.py:146-149 | a declared size past the data is clipped to the data; size 0 with a trailer cuts the last 4 bytes |
| Vita.PairsOfSampleBytes | flexclient/vita.py:156-164 | serialising samples as little-endian float pairs and pairing the words back gives the samples |
| Vita.EncodedHeaderReads | flexclient/vita.py:100-107 | the header of an encoded packet parses to the layout and sequence it was built with |
| Vita.EncodedStreamId | flexclient/vita.py:112-115 | the encoded stream id is read back from word 1 |
| Vita.EncodedTimestamps | flexclient/vita.py:128-142 | present integer and fractional timestamps are read back at the offsets the decoder computes |
| Vita.TsIntAt | flexclient/vita.py:128-133 | the integer timestamp follows the header, stream id and optional class id |
| Vita.TsFracAt | flexclient/vita.py:137-142 | the fractional timestamp follows the integer timestamp when that is present |
| Vita.EncodedPayload | flexclient/vita.py:146 | the sample bytes sit exactly at the payload offset and before the trailer |
| Vita.EncodedSlice | flexclient/vita.py:146-149 | for a packet whose declared size counts every word, the payload slice is exactly its sample bytes |
| Vita.PayloadSamples | flexclient/vita.py:151-164 | a payload of one or more serialised samples decodes to those samples |
| Vita.DecodeEncode | flexclient/vita.py:86-172 | decoding an encoded packet returns it, for every combination of class id, trailer and timestamp fields |
| Receiver.Gap | flexclient/vita.py:61-70 | the missed count is the distance modulo 16 from the expected successor to the received number, and zero exactly when the successor arrives |
| Receiver.OnPacket | flexclient/vita.py:56-77 | a filtered-out packet changes nothing; an accepted one is counted, its gap added and its sequence recorded, and it is queued or, on a full queue, dropped |
| Receiver.WideFilterDropsAll | flexclient/vita.py:56-57 | a filter of 2^32 or more equals no 32-bit stream id, so every packet is dropped and nothing changes |
| Receiver.OnDatagram | flexclient/vita.py:53-55 | a datagram that does not decode leaves the receiver unchanged |
| Receiver.DatagramStep | flexclient/vita.py:49-77 | one datagram adds exactly as many accepted packets as drops plus new queue entries, and keeps the queue within capacity |
| Receiver.RunAccounting | flexclient/vita.py:49-82 | over any run of datagrams and reads, every accepted packet was dropped, is queued or was handed out; queued packets come out first and in order |
| Receiver.GapExample | flexclient/vita.py:61-70 | sequence numbers 5, 6, 9 on one stream count 2 missed packets |
| Lines.Drain | flexclient/tcp_client.py:132-134 | neither the complete lines nor the leftover contain a newline |
| Lines.DrainRebuilds | flexclient/tcp_client.py:132-134 | the lines joined with newlines, followed by the leftover, are the buffer: no byte is lost |
| Lines.DrainUnsplit | flexclient/tcp_client.py:132-134 | newline-terminated lines and a leftover are split back exactly |
| Lines.DrainAppend | flexclient/tcp_client.py:131-134 | splitting in two chunks gives the same lines as splitting the whole |
| Lines.DrainFirstLine | flexclient/tcp_client.py:132-134 | the first line is the text up to the first newline |
| Lines.FeedAllConcat | flexclient/tcp_client.py:125-134 | however the stream is chunked by `recv`, the lines handled are those of the concatenated stream |
| KeyValue.Pair | flexclient/discovery.py:89-91 | a token yields a pair exactly when it contains `=` |
| KeyValue.CollectLast | flexclient/discovery.py:87-91 | a key is in the dictionary exactly when some token carries it, and its value is that of the last such token |
| KeyValue.KeyValuesLast | flexclient/discovery.py:87-91 | the same, stated over the raw tokens: the last token with the key wins |
| KeyValue.PairOfToken | flexclient/tcp_client.py:201-205 | a `key=value` token of a plain key splits back into key and value |
| KeyValue.KeyValuesOfTokens | flexclient/discovery.py:87-91 | fields with distinct plain keys written as tokens read back as a dictionary with every key's value |
| StatusCodes.NamedIsListed | flexclient/common.py:21-31 | every code in the message table has a non-empty name |
| StatusCodes.Meaning | flexclient/common.py:35-40 | every code has a non-empty meaning, the table's or the unmapped text |
| StatusCodes.FormatStatusDetail | flexclient/common.py:35-40 | the detail starts with `0x`, is at least 12 characters and ends with `)` |
| StatusCodes.DetailCode | flexclient/common.py:35-40 | the first word of the detail reads back as the status code |
| StatusCodes.DetailUnmapped | flexclient/common.py:35-40 | the detail ends in the unmapped text exactly when the code is not in the table |
| StatusCodes.NoteStatus | flexclient/common.py:42-52 | a warning is given exactly for an unmapped code not yet logged, which is then added; the logged set holds unmapped codes only |
| StatusCodes.NoteAllWarnsOnce | flexclient/common.py:33-52 | over any sequence of codes each unmapped, not yet logged code is warned about exactly once, and the logged set becomes the old set plus those |
| Clients.ClientRecord | flexclient/tcp_client.py:186-193 | a record is found exactly when the payload starts with or contains `client `, and it starts with `client ` |
| Clients.ParseClient | flexclient/tcp_client.py:184-212 | a parsed GUI client has a non-empty client id |
| Clients.ParseClientLine | flexclient/tcp_client.py:184-223 | the record a radio sends for a GUI client is parsed back as that client, with every field |
| Clients.RecordOfLine | flexclient/tcp_client.py:186-193 | the record of a client line is the whole line |
| Clients.Lookup | flexclient/tcp_client.py:222-223 | a lookup finds a stored client with the id exactly when the id is stored |
| Clients.StoreLookup | flexclient/tcp_client.py:222-223 | after storing a client its id finds it and every other id finds what it found before |
| Clients.StoreShape | flexclient/tcp_client.py:222-223 | a known id is replaced in place; a new one is appended at the end; the order of ids is kept |
| Clients.StoreTable | flexclient/tcp_client.py:222-223 | storing a client with a non-empty id keeps ids unique and non-empty |
| Clients.Capture | flexclient/tcp_client.py:175-223 | capturing a status payload keeps ids unique and non-empty |
| Clients.Insert | flexclient/tcp_client.py:57 | the insertion step of the listing sort is a permutation adding the element |
| Clients.InsertSorted | flexclient/tcp_client.py:57 | insertion keeps the list sorted by (station, client id) |
| Clients.Listing | flexclient/tcp_client.py:53-58 | the listing is a permutation of the stored clients |
| Clients.ListingSorted | flexclient/tcp_client.py:53-58 | the listing is sorted by (station, client id) |
| Clients.ListingTable | flexclient/tcp_client.py:53-58 | the listing keeps ids unique and non-empty |
| Clients.ListingStrict | flexclient/tcp_client.py:57 | with unique ids the listing is strictly increasing in (station, client id) |
| Clients.GuiClientIdsOfTable | flexclient/tcp_client.py:60-62 | the id list is the listing's ids, one per stored client, in sort order |
| Clients.CaptureAll | flexclient/tcp_client.py:77-82 | capturing every line of a `client list` reply keeps ids unique and non-empty |
| Clients.PutAllKeeps | flexclient/tcp_client.py:77-85 | storing many records never shrinks the table and keeps every old id at its place |
| Clients.PutAllAdds | flexclient/tcp_client.py:77-85 | the records appended carry ids that were not stored before |
| Clients.RefreshCounts | flexclient/tcp_client.py:64-86 | the refresh reports the number of non-blank reply lines and the number of new ids, the table growing by exactly that many |
| Channel.ErrorTextKind | flexclient/tcp_client.py:110-119 | timeout and rejection texts are told apart by their start; a rejection names the command and ends with a non-empty detail |
| Channel.FrameRoundTrip | flexclient/tcp_client.py:97 | a frame is one line from which the radio reads back the sequence number and the command |
| Channel.ParseResponse | flexclient/tcp_client.py:142-151 | only lines starting with `R` and holding `\|` are replies |
| Channel.ResponseRoundTrip | flexclient/tcp_client.py:142-151 | every reply reads back as itself, even when its message holds `\|` |
| Channel.ShortResponse | flexclient/tcp_client.py:151 | a reply with no message field reads as an empty message |
| Channel.SignedStatusDropped | flexclient/tcp_client.py:147-148 | a reply whose hex status starts with `-` is dropped, where `int(x, 16)` would read a negative status |
| Channel.SignedSequenceDropped | flexclient/tcp_client.py:147 | a reply whose sequence number starts with `-` is dropped, where `int()` would read a negative number |
| Channel.InitValid | flexclient/tcp_client.py:19-26 | a new channel is consistent and numbers its first command 1 |
| Channel.Issue | flexclient/tcp_client.py:94-100 | the command gets the next number, not already waiting, with an empty slot and its text; other slots are untouched; consistency is kept |
| Channel.HandleLine | flexclient/tcp_client.py:140-173 | a line is passed on exactly when it is a status line, and as is; the numbering and waiting commands stay; consistency is kept |
| Channel.Record | flexclient/tcp_client.py:142-168 | a reply fills the slot of its number when that command is waiting and is ignored otherwise; the logged set only grows and stays unmapped-only |
| Channel.Observe | flexclient/tcp_client.py:169-182 | a status line changes only the client table, which keeps its shape |
| Channel.HandleLineSlot | flexclient/tcp_client.py:163-168 | a waiting slot takes the reply carrying its number and keeps its content otherwise |
| Channel.HandleLinesPassesOn | flexclient/tcp_client.py:169-173 | the lines passed on are exactly the status lines, in arrival order |
| Channel.HandleLinesSlot | flexclient/tcp_client.py:163-168 | after any lines a waiting slot holds the last reply with its number, or its old content when none came |
| Channel.Complete | flexclient/tcp_client.py:105-121 | the slot is freed and a rejected status is either named or logged |
| Channel.CompleteOutcome | flexclient/tcp_client.py:105-121 | no reply is a timeout, a non-zero status a rejection with the stripped message, status 0 the message |
| Channel.SendCommandOutcome | flexclient/tcp_client.py:88-121 | the frame carries the next number; the outcome is decided by the last reply with that number; afterwards the same commands wait, the number advanced and the status lines were passed on in order |
| Channel.NoReplyTimesOut | flexclient/tcp_client.py:110-111 | with no reply line at all the command times out |
| Channel.LateReplyDropped | flexclient/tcp_client.py:105-108 | a reply arriving after its command completed is ignored |
| Channel.RefreshClientListCounts | flexclient/tcp_client.py:64-86 | a failed `client list` reports (0, 0) and changes nothing more; a successful one counts the reply's lines and the new ids |
| Exchange.Send | flexclient/tcp_client.py:88-121 | a command is recorded as sent and consumes one scripted reply; an exhausted script is a timeout |
| Exchange.SendAccepted | flexclient/tcp_client.py:110-121 | a command is accepted exactly when its reply is there with status 0, giving its message |
| Exchange.FirstAcceptedTries | flexclient/setup.py:131-144 | the commands tried are the alternatives up to the first accepted one, or all of them |
| Exchange.FallbackPair | flexclient/setup.py:131-144 | the second spelling is tried exactly when the first is refused |
| Discovery.ClassBit | flexclient/discovery.py:41-42 | the class-id bit of the header word is bit 3 of the first byte |
| Discovery.OuiBytes | flexclient/discovery.py:54-64 | the OUI test is a test of bytes 9-11 |
| Discovery.PacketClassBytes | flexclient/discovery.py:54-64 | the packet-class test is a test of bytes 14-15 |
| Discovery.DiscoveryTextAccepts | flexclient/discovery.py:36-66 | a datagram is accepted exactly when it has 16 bytes, the class-id bit, OUI `0x001c2d` and class `0xffff`; its text is the rest with trailing NULs stripped |
| Discovery.FirstReply | flexclient/discovery.py:68-72 | the index found is the first accepted datagram, or none is accepted |
| Discovery.Discover | flexclient/discovery.py:11-81 | at most one radio, none exactly when no datagram is accepted, and on the command port |
| Discovery.DiscoverFirst | flexclient/discovery.py:66-72 | the radio found is the parse of the first accepted datagram's text with its sender address |
| Discovery.CommaList | flexclient/discovery.py:97-98 | list entries are non-empty and free of commas |
| Discovery.ParseDiscovery | flexclient/discovery.py:83-103 | the record's port is the command port |
| Discovery.ParseDiscoveryDefaults | flexclient/discovery.py:93-98 | without fields the record takes the sender address, model `unknown` and empty strings and lists |
| Discovery.CommaListOfText | flexclient/discovery.py:97-98 | a comma-joined list of plain entries reads back as that list |
| Discovery.AdvertiseRoundTrip | flexclient/discovery.py:83-103 | the discovery text a radio broadcasts for itself parses back to the same record |
| Discovery.SummaryList | flexclient/discovery.py:120-125 | a missing or empty field is the empty list; otherwise the entries rejoin to the field |
| Discovery.Entry | flexclient/discovery.py:130-136 | an entry is the list's element when present and non-empty, else `n/a` |
| Discovery.GuiCount | flexclient/discovery.py:127 | the client count is the longest of the six lists |
| Discovery.DetailLine | flexclient/discovery.py:130-140 | a detail line starts with its index and ip and ends with the client id when there is one |
| Discovery.SummaryHead | flexclient/discovery.py:112-118 | the summary opens with four lines, the first `Discovery response:` |
| Discovery.SummaryLines | flexclient/discovery.py:105-142 | the summary has at least its four head lines |
| Discovery.SummaryCoversClients | flexclient/discovery.py:127-140 | without clients there are four lines; otherwise a count line and one detail line per client, in order |
| Discovery.SummaryNamesIds | flexclient/discovery.py:136-140 | the detail line of each client with an id ends with that id |
| Discovery.Summary | flexclient/discovery.py:142 | the text starts with `Discovery response:` |
| Monitor.ExtractKey | flexclient/setup.py:346-351 | a value is found exactly when some token starts with `key=`, and it is the rest of the first such token |
| Monitor.ExtractKeyOfTokens | flexclient/setup.py:346-351 | in a line of plain tokens the value of the first `key=` token is found |
| Monitor.KeysExclusive | flexclient/setup.py:348-349 | a token starts with `k=` for at most one key `k` free of `=` |
| Monitor.FreqToMHz | flexclient/setup.py:353-360 | a number is read exactly when `float` reads it; from 1e6 up it is Hz and divided to MHz, below it is MHz already |
| Monitor.FreqUnits | flexclient/setup.py:353-360 | a whole frequency reported in Hz or in MHz gives the same MHz value |
| Monitor.BandwidthToHz | flexclient/setup.py:363-378 | only positive numbers are read; below 1000 they are MHz and scaled to Hz, from 1000 up they are Hz |
| Monitor.BandwidthUnits | flexclient/setup.py:363-378 | zero is refused, small whole values are MHz and large ones Hz |
| Monitor.Truthy | flexclient/setup.py:228-236 | a value counts exactly when it is present and non-empty |
| Monitor.Keep | flexclient/setup.py:281-300 | an update overrides the prior value and an absent one keeps it |
| Monitor.OnSlice | flexclient/setup.py:251-266 | without a non-zero slice nothing changes; otherwise at most the slice frequency does |
| Monitor.MergeInfo | flexclient/setup.py:278-302 | merging a status never forgets a known field of the panadapter record |
| Monitor.OnDisplayPan | flexclient/setup.py:269-327 | panadapter 0 or a line without an id changes nothing; otherwise the panadapter becomes known and is chosen if none was |
| Monitor.TunePan | flexclient/setup.py:310-325 | tracking the chosen panadapter changes only the panadapter frequency and bandwidth and never forgets them |
| Monitor.OnLineNoZeroPan | flexclient/setup.py:235-277 | no status line makes panadapter 0 the chosen or a known panadapter |
| Monitor.MonitorNoZeroPan | flexclient/setup.py:204-327 | over any lines, panadapter 0 is never chosen or recorded |
| Monitor.OnLineGrows | flexclient/setup.py:243-300 | a line never removes a known panadapter, forgets a field or unsets the chosen one |
| Monitor.MonitorGrows | flexclient/setup.py:204-327 | the same over any sequence of lines |
| Monitor.StreamLineAssigns | flexclient/setup.py:211-246 | our stream's status sets the slice, and a non-zero panadapter with the stream recorded against it; panadapter 0 is left alone |
| Monitor.AssignReads | flexclient/setup.py:225-246 | the stream clause's assignments follow the `slice=` and `pan=` values it extracts |
| Monitor.StreamLineStatus | flexclient/setup.py:211-220 | a stream status line is recognised with its hex stream id |
| Monitor.SliceLineTunes | flexclient/setup.py:251-264 | our non-zero slice's status sets the slice frequency to its Hz value in MHz |
| Monitor.OnSliceReads | flexclient/setup.py:251-264 | the slice frequency is the `RF_frequency` value the slice line carries |
| Setup.Trunc | flexclient/setup.py:111 | `int()` of a float truncates toward zero |
| Setup.LeastPan | flexclient/setup.py:59-61 | the least non-zero known panadapter, and none exactly when no non-zero one is known |
| Setup.SelectPan | flexclient/setup.py:55-62 | an already chosen panadapter stays; else a non-zero preferred one; else the least non-zero known one; nothing else changes |
| Setup.SelectPanNoZero | flexclient/setup.py:55-62 | selection never chooses panadapter 0 |
| Setup.StreamIdOf | flexclient/setup.py:83-89 | a blank reply is no stream; otherwise the stripped reply is the id when it is hex and the error text when not |
| Setup.StreamReplyRead | flexclient/setup.py:87 | a stream id written in hex, with or without `0x`, is read back |
| Setup.PrepareSends | flexclient/setup.py:47-81 | the first phase sends one or both subscribe spellings, then `dax iq set` for a chosen panadapter |
| Setup.FinishSends | flexclient/setup.py:92-124 | after the stream exists it subscribes to the chosen panadapter and tunes a non-zero slice when a center is set |
| Setup.SetupBegins | flexclient/setup.py:47-48 | the first command setup sends is `sub pan all` |
| Setup.SetupCommands | flexclient/setup.py:39-127 | the commands sent are subscribe, panadapter binding, `stream create`, and the finishing commands only after success |
| Setup.SetupOutcome | flexclient/setup.py:83-90 | a refused create fails with its error, a blank or zero reply is no stream, bad hex is its own error; setup succeeds exactly for a non-zero hex id, which it returns |
| Setup.SetupResult | flexclient/setup.py:83-127 | setup never lands on panadapter 0 and a returned id is the session's stream |
| Setup.MonitorKeepsStream | flexclient/setup.py:223 | status lines never change the session's own stream id |
| Setup.Teardown | flexclient/setup.py:329-344 | with a stream, `stream remove` is sent and the result is `ok` or the error text; without one nothing is sent and the result is `none` |
| Setup.SetupThenTeardown | flexclient/setup.py:329-344 | after a successful setup, teardown removes exactly the stream created |
| Setup.StreamRemoveNames | flexclient/setup.py:336 | the remove command names the stream id in `0x` hex, which reads back as the id |
| Director.EffectiveBindId | flexclient/client.py:32 | a configured id wins over the handle; an id is given exactly when one of them is |
| Director.ResolveRadio | flexclient/client.py:80-87 | a configured IP makes a bare record on the command port; otherwise the first discovered radio, or the no-radio error |
| Director.ResolvedPort | flexclient/client.py:80-87 | a resolved radio is always on the command port |
| Director.ChooseBindId | flexclient/client.py:116-124 | a configured id wins; else the first id from status; else the first advertised id |
| Director.BindsLeastClient | flexclient/client.py:116-124 | without a configured id the client bound is the one with the least (station, client id) |
| Director.Label | flexclient/client.py:54-57 | slices 0-25 are named by one letter A-Z, others by their number |
| Director.LabelInjective | flexclient/client.py:54-57 | different slices get different labels |
| Director.LineLabelOf | flexclient/client.py:45-57 | a `slice list` line starting with a number is labelled by that number |
| Director.Labels | flexclient/client.py:44-57 | there are never more labels than lines |
| Director.LabelsOfSlices | flexclient/client.py:44-57 | lines all starting with slice numbers give exactly those slices' labels, in order |
| Director.BindCommandsSent | flexclient/client.py:126-135 | a bind is sent exactly when an id was chosen, and it names that id |
| Director.LearnTable | flexclient/client.py:64-76 | the clients learnt before binding form a table with unique, non-empty ids |
| Director.LearnSends | flexclient/client.py:64-76 | learning sends `client list` then one or both subscribe spellings |
| Director.ConfiguredBind | flexclient/client.py:116-128 | a configured id is the one bound |
| Director.StartRadio | flexclient/client.py:80-87 | a configured IP never yields the no-radio error; with no IP and no radio, start fails with nothing sent |
| Director.StartCommands | flexclient/client.py:78-150 | start learns the clients, binds, then begins setup with `sub pan all`; the receiver runs exactly when setup succeeded |
| Director.StartSetup | flexclient/client.py:141-158 | start's result is setup's: the stream id to filter on, or the setup error |
| Director.StartReceiver | flexclient/client.py:150-157 | the receiver start builds filters on setup's stream id, which is never 0. It passes exactly the packets whose 32-bit id equals that id, so an id of 2^32 or more passes none |
| Director.Stop | flexclient/client.py:161-167 | stop releases the receiver first, then the stream, then the connection, each only when held |
| Director.StopAll | flexclient/client.py:161-167 | with everything held, stop removes the stream and releases all three in order |
| Director.StartThenStop | flexclient/client.py:78-167 | after a successful start, stop removes exactly the stream created; after a start that found no radio it does nothing |
| Legacy.Project | flex_client.py:36-42 | the legacy record carries the same address, port, model, serial and version |
| Legacy.ParseDiscovery | flex_client.py:127-143 | the legacy record is on the command port |
| Legacy.ParseDiscoveryAgrees | flex_client.py:127-143 | the legacy parse is the package's parse without the client lists |
| Legacy.Discover | flex_client.py:55-125 | the legacy discovery finds the same radios as the package's |
| Legacy.Outcome | flex_client.py:204-215 | the legacy command succeeds exactly when the package's does, with the same message |
| Legacy.OutcomeText | flex_client.py:208-213 | the legacy failure texts: the timeout text, and a failure naming the 8-digit status and the command, ending with the message |
| Legacy.Send | flex_client.py:188-215 | a legacy command sends and consumes replies as the package's does, with the same success |
| Legacy.Issue | flex_client.py:194-199 | the legacy command gets the next number and an empty slot |
| Legacy.HandleLine | flex_client.py:234-260 | a legacy line passes on exactly the status lines and keeps the numbering and waiting commands |
| Legacy.Complete | flex_client.py:204-215 | the slot is freed after the wait |
| Legacy.ConnAgrees | flex_client.py:188-260 | the legacy numbering, reply matching and completion agree step by step with the package's channel |
| Legacy.OnStream | flex_client.py:439-466 | the legacy stream clause never changes the stream id or the slice frequency |
| Legacy.OnSlice | flex_client.py:469-484 | the legacy slice clause changes only the slice frequency, as the package's does |
| Legacy.OnDisplayPan | flex_client.py:487-510 | the legacy display clause chooses a reported panadapter, 0 included, when none was chosen |
| Legacy.MonitorKeeps | flex_client.py:432-510 | status lines never change the legacy stream id or panadapter ownership |
| Legacy.StreamLineTakesPanZero | flex_client.py:462-464 | `slice=0 pan=0x00000000` makes the legacy monitor choose panadapter 0, which the package's refuses |
| Legacy.StreamLineZero | flex_client.py:457-464 | that line lands on slice 0 and panadapter 0 from any state watching the stream |
| Legacy.StreamLineLands | flex_client.py:462-464 | the new stream's first status lands the legacy session on panadapter 0 |
| Legacy.CreatePan | flex_client.py:295-330 | the created panadapter is non-zero or dropped; ownership is taken only with a non-zero id |
| Legacy.CreatePanSends | flex_client.py:295-330 | the panadapter create is the first command of this step |
| Legacy.ConcludeKeeps | flex_client.py:358-430 | after `stream create` a returned id is non-zero and the session's stream |
| Legacy.SetupResult | flex_client.py:287-430 | without a center, setup fails before sending; with one, it starts with the panadapter create; a returned id is the session's stream |
| Legacy.PanZeroCommands | flex_client.py:295-409 | the commands sent on the way to panadapter 0 start with the create and end with the center change |
| Legacy.SetupOpens | flex_client.py:295-366 | a timed-out create is followed directly by `stream create` |
| Legacy.SetupAddressesPanZero | flex_client.py:287-430 | after a timed-out create and that status line, setup succeeds on panadapter 0 and sends it a center change |
| Legacy.RetunePanZero | flex_client.py:403-412 | with slice 0 and panadapter 0 the first center spelling is sent to panadapter 0 |
| Legacy.SixDigits | flex_client.py:321 | six-digit zero padding is six decimal digits with the given value |
| Legacy.MHzTextRoundTrip | flex_client.py:321 | the bandwidth written in MHz with six places reads back as the rate, and as Hz again |
| Legacy.TeardownSends | flex_client.py:512-527 | teardown removes the stream, then the panadapter when it was created here |
| Legacy.SetupThenTeardown | flex_client.py:358-527 | after a successful setup teardown first removes the stream created; it also removes a panadapter only when created here |

## Left out

- Sockets, threads, locks, sleeps, events and queues as objects. The
  receive loops become functions over the lines or datagrams they handle,
  and `send_command`'s wait becomes the lines that arrive before it ends.
- Logging and `print`: the model keeps what is logged only where a
  decision depends on it, namely the logged-code set and error texts.
- `_pick_udp_listen_port` and `get_local_ip` (flexclient/common.py:54-61,
  flexclient/tcp_client.py:38-42): the chosen port and the local address are
  parameters.
- Discovery's socket loop (flexclient/discovery.py:28-81): the datagrams
  received before the deadline are a parameter.
- Floating point: frequencies and bandwidths are exact reals. Sample words
  are carried as their `bv32` bit patterns, with no IEEE-754 arithmetic.
- Monitor.FreqToMHz: only unsigned decimals with an optional fraction are
  read. `float()`'s signs, exponents, `inf` and `nan` are not modelled; the
  radio sends none of those.
- Monitor.BandwidthToHz: reads numbers the same way as Monitor.FreqToMHz.
  Negative values are refused, as the source also refuses them.
- Text.ParseInt: an optional `+` or `-` sign followed by decimal digits.
  Text.ParseNat takes decimal digits only, with no sign. Text.ParseHex takes
  hex digits after an optional `0x` or `0X`, with no sign. `int()`'s
  surrounding whitespace and underscores are modelled by none of them.
- Channel.ParseResponse: a reply whose sequence number or status carries a
  sign, whitespace or underscores is dropped as unreadable. Python's `int()`
  would read it, filling the pending slot, or logging a negative status code.
  Channel.SignedStatusDropped and Channel.SignedSequenceDropped state this
  for a leading `-`. The radio sends neither field signed.
- Bytes are decoded to text one character per byte. UTF-8 multi-byte
  sequences are not modelled.
- Status lines during setup are observed at two points, during the
  subscribe pause and after `stream create`, rather than interleaved with
  each command reply.
- The report throttle and signature logging of setup
  (flexclient/setup.py:146-202) are logging only.
- Chaining to a previously installed status callback (flexclient/client.py
  and flexclient/setup.py) forwards lines unchanged; it is not modelled.
- The receiver's queue capacity is a parameter. The receiver's own default
  is 200 (flexclient/vita.py:25), and the client passes 500
  (flexclient/client.py:33).
- Director.Stop: the releases are returned as a list. Closing sockets and
  joining threads is not modelled.
- The legacy client's `if radio:` test on the discovered radio is always
  true in the model, because the record is never empty.
- The legacy `stream list` reply is only printed, so it is ignored.
- The `slice list` text is logged only; Director.Labels models its labels.
- GUI, spectrum, audio and synthesis code outside the protocol core.

## Findings

| source | as written | input that shows it | evidently intended | confidence | as-written member | corrected member |
|---|---|---|---|---|---|---|
| flex_client.py:462-464 | The legacy stream clause assigns `pan=` whatever its value, so panadapter 0 can become the session's panadapter. Setup then addresses panadapter 0 with `display pansetting 0x00000000 center=…`. | The panadapter create times out, and the new stream's first status line is `stream 0x… type=dax_iq slice=0 pan=0x00000000`. | Panadapter 0 means "unassigned" and is never chosen, as the package's monitor does (flexclient/setup.py:237-242). | not executed | Legacy.SetupAddressesPanZero | Monitor.MonitorNoZeroPan |
