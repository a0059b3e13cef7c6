# Verified model of the caption pipeline

This project models, in Dafny, the analog closed-caption pipeline of the repository and the store that
serves its output, and two algorithms of the YUI library shipped with the web application. It proves
what those parts promise over whole runs.

* **Decoder** (`Vbi`, `Decoding`, `XdsPackets`, `Lines`, `Itv`, `DecoderRuns`). `VBILine` decodes the byte
  pairs of line 21 and line 284 (section 15.119 of 47 CFR): text and control codes by data channel, and
  extended-data packets that captions may interrupt (section 9 of EIA/CEA-608). `LineBuffer` collects
  one channel into lines and, on TEXT2, reads interactive-TV links with their Internet checksum
  (section 1 of RFC 1071). `CommandCodes` are the codes as they are sent;
  `ControlTheorems`, `XdsFieldTheorems` and `ItvAttributes` say what each byte means to a listener, without
  the model's own tables.
* **Sentences** (`Sentences`, `CaptionPipeline`, with `ParityTheorems` on the errors they count).
  `SentenceBuffer` splits lines into (speaker, sentence, errors) events. Its regular expressions are
  predicates on character sequences, proved to be what the expressions find. `SplitterTheorems` says what
  speakers, chevrons, sound effects and corrupt characters do to a line.
* **Push pipe** (`PushPipe`, `PushPipeRuns`). One producer and any number of readers over the 1024-byte
  pipe and the monitor of `VBIDevice`, as a state machine whose steps are single bytes and monitor
  entries and exits.
* **Caption store** (`CaptionStores`, `CaptionFiles`). The two-level cache of `CaptionStoreImpl`, as
  written and with two spots repaired, the timestamp index of `CaptionFile`, and the documents it reads
  as `FileWriter` writes them (`CaptionDocuments`).
* **Result cache** (`ResultCaches`, `ResultCacheLru`), **curve and animation** (`Beziers`, `Animations`).

Where the source updates objects, there is a class with the source's fields and loops whose methods are
proved to do exactly what a function on the object's value says; the theorems are about those functions,
for all inputs and all runs. The theorem files import the model files and add nothing to the model.
`dafny verify dfyconfig.toml` checks everything.

## What turned out different from what the code says of itself

* `recentlyUsedDocuments` never gets its first element (`CaptionStoreImpl.java:92`), and evicting an
  index neither closes the file nor takes it off the document list (lines 73-77). So the code never
  closes a document; it runs into an empty list exactly when `FaultFreeIffSafe` says. The repaired
  variant (`repaired` set) has both spots as evidently meant.
* `ITVLink.checksum` folds the carry once. `AcceptsRfcIffFoldsOnce` says when that is RFC 1071, and
  `SecondCarryIsRefused` gives a text for which it is not.
* The comment in `VBIDevice.pushBytes` calls a deadlock practically impossible. It needs 125 whole pairs
  read between two lines of `pushBytes`, and 125 are enough.
* `executeCommand` may be run for several listeners, but only the first hears of an XDS update.
* `SentenceBuffer` counts the parity errors of every channel, not only of its own
  (`ForeignErrorIsCounted`); `DemultiplexingIff` and `SentencesIgnoreOtherChannels` say how much that
  matters.
* After a cut or a chevron inside a line the colon is looked for in all that is left, so a name behind a
  later chevron takes what stands before it along (`SpeakerIsNamed`); `ChevronIsABreak` is about lines
  without such a colon.
* The end code leaves an accepted packet as it is stored (`PacketOutlivesItsEnd`), so a repeated end code
  is checked against the mapped text.
* A line less than nine tenths of which is printable is dropped, and the sentence pending is delivered
  as it stands.
* `_doQueryCache` hands the callback an undefined query when `queryMatchCase` is set, and an empty
  cached answer is followed by a second, live one: `CallsOfQuery` gives the exact calls.
* The cache matches encoded keys, so matching anywhere in a key also matches its escapes
  (`EscapesAreMatched`); `PlainTextIsTransparentIff` says exactly when that is seen.
* An animation behind one that completes misses its turn in that interval (`NeighbourMissesTurn`);
  `EveryTurnTakenIff` says exactly when all get theirs.
* A range query that falls between two anchors ends in an error rather than an empty answer.

## Model

| member | source | states |
|---|---|---|
| `SentenceTheorems.MidlineCutIsFind` | cc4j/src/main/java/com/knowbout/cc4j/SentenceBuffer.java:38 | the cut position is where the leftmost match of the midline expression ends, its quote and spaces included |
| `SentenceTheorems.NoCutIsNoFind` | cc4j/src/main/java/com/knowbout/cc4j/SentenceBuffer.java:38 | there is no cut if and only if the expression matches nowhere |
| `SentenceTheorems.EndOfLineIsFind` | cc4j/src/main/java/com/knowbout/cc4j/SentenceBuffer.java:39 | the end-of-line test is true if and only if the expression matches, `$` standing also before a final line terminator |
| `Sentences.SentenceBuffer.ResetBuffer` | cc4j/src/main/java/com/knowbout/cc4j/SentenceBuffer.java:138-153 | the object goes to the state `Reset` gives: one event if there is a speaker or text, nothing pending after |
| `Sentences.SentenceBuffer.FindSpeakerIn` | cc4j/src/main/java/com/knowbout/cc4j/SentenceBuffer.java:228-249 | the chevron loop and the colon leave exactly the state and the rest of the line of the recursive form |
| `Sentences.SentenceBuffer.LineReadyCall` | cc4j/src/main/java/com/knowbout/cc4j/SentenceBuffer.java:156-201 | the splitting loop ends, because every pass shortens the line, in the state of the recursive form |
| `Sentences.SentenceBuffer.ParityError` | cc4j/src/main/java/com/knowbout/cc4j/SentenceBuffer.java:251-254 | one more error and nothing else changes |
| `Sentences.CutStep` | cc4j/src/main/java/com/knowbout/cc4j/SentenceBuffer.java:176-193 | cutting and looking for a speaker leaves a strictly shorter line, even when the cut is at 0 |
| `SentenceTheorems.SplitAtBreak` | cc4j/src/main/java/com/knowbout/cc4j/SentenceBuffer.java:168-200 | midline, end-of-line and abbreviation rules agree across a break, from any state, with filtering on or off |
| `SentenceTheorems.LineBreakInvariance` | cc4j/src/main/java/com/knowbout/cc4j/SentenceBuffer.java:138-249 | lines fed one by one give the events and the pending text of the lines joined by single spaces, from any state; with filtering on, if the joined lines have no sound effect |
| `SentenceTheorems.AnyTwoLayoutsAgree` | cc4j/src/main/java/com/knowbout/cc4j/SentenceBuffer.java:138-249 | two layouts of the same text, without sound effects if filtering is on, cannot be told apart by events or pending text |
| `SentenceTheorems.Conservation` | cc4j/src/main/java/com/knowbout/cc4j/SentenceBuffer.java:156-249 | with filtering off, over any run, speakers and sentences delivered and pending spell out the kept lines in order, spaces, controls, `>` and `:` erased |
| `SentenceTheorems.EventsAreClean` | cc4j/src/main/java/com/knowbout/cc4j/SentenceBuffer.java:138-153 | on every run each event is trimmed and says something, and with filtering on holds no bracketed sound effect |
| `SentenceTheorems.FilteredHasNoEffect` | cc4j/src/main/java/com/knowbout/cc4j/SentenceBuffer.java:40 | after replacing all matches, no stretch between line terminators has an opening bracket before a closing one |
| `SentenceExactness.AbbreviationMeaning` | cc4j/src/main/java/com/knowbout/cc4j/SentenceBuffer.java:203-222 | true if and only if the text ends in a listed title, or in a dot and a letter as in U.S., and a period |
| `SentenceExactness.SentencesAreExact` | cc4j/src/main/java/com/knowbout/cc4j/SentenceBuffer.java:156-222 | each event delivered from plain lines, without an opening bracket if filtering is on, ends in a stop that is no abbreviation and has no other such stop inside; what is pending has none |
| `SplitterTheorems.SpeakerIsNamed` | cc4j/src/main/java/com/knowbout/cc4j/SentenceBuffer.java:228-249 | from any state, blanks, any number of chevrons, a name without a colon, a colon and any rest, colons included: what was pending is delivered, a silent turn for each chevron but the last, the name is exactly the speaker and the rest exactly what is left |
| `SplitterTheorems.SpeakerIsUnnamed` | cc4j/src/main/java/com/knowbout/cc4j/SentenceBuffer.java:228-249 | without a colon chevrons make the speaker the empty name, and without chevrons nothing changes |
| `SplitterTheorems.LineWithSpeaker` | cc4j/src/main/java/com/knowbout/cc4j/SentenceBuffer.java:156-201 | the same for a whole line, of which the rest is then split for that speaker |
| `SplitterTheorems.NamedSentenceIsDelivered` | cc4j/src/main/java/com/knowbout/cc4j/SentenceBuffer.java:156-201 | a line with a name and one sentence up to its stop, quoted or not, is delivered at once under that name, with no errors of before |
| `SplitterTheorems.SplitAtChevron` | cc4j/src/main/java/com/knowbout/cc4j/SentenceBuffer.java:173-193 | chevrons inside a text end the sentence before them, abbreviation or not, and what follows is split as a new line |
| `SplitterTheorems.ChevronIsABreak` | cc4j/src/main/java/com/knowbout/cc4j/SentenceBuffer.java:156-201 | a line with chevrons in it, with or without a space before them, does what the two lines do that a line break there would make |
| `SplitterTheorems.CorruptLineEndsSentence` | cc4j/src/main/java/com/knowbout/cc4j/SentenceBuffer.java:157-163 | a line with more than one control character in ten delivers what is pending and nothing of itself |
| `SplitterTheorems.ControlsAreTransparent` | cc4j/src/main/java/com/knowbout/cc4j/SentenceBuffer.java:157-159 | in any other line a control character, wherever it stands, changes nothing |
| `SplitterTheorems.EffectBecomesSpace` | cc4j/src/main/java/com/knowbout/cc4j/SentenceBuffer.java:40 | everything from the first opening to the last closing bracket, and the spaces around, becomes one space |
| `SplitterTheorems.EffectIsFiltered` | cc4j/src/main/java/com/knowbout/cc4j/SentenceBuffer.java:164-167 | with filtering on, from any state, a line with a sound effect does what it does with a space in its place |
| `CaptionPipeline.SentencesIgnoreRepetition` | cc4j/src/main/java/com/knowbout/cc4j/VBILine.java:185-333 | repeating control codes in the byte stream changes no speaker, sentence, error count or pending text |
| `CaptionPipeline.SentencesIgnoreOtherChannels` | cc4j/src/main/java/com/knowbout/cc4j/LineBuffer.java:79-87 | other channels' segments, damaged or not, change no speaker and no sentence, delivered or pending; without parity errors they change nothing, error counts included |
| `CaptionPipeline.ErrorsAreOnlyCounted` | cc4j/src/main/java/com/knowbout/cc4j/SentenceBuffer.java:251-254 | from any state and for any inputs, leaving out the parity errors changes error counts and nothing else |
| `CaptionPipeline.ForeignErrorIsCounted` | cc4j/src/main/java/com/knowbout/cc4j/SentenceBuffer.java:251-254 | a channel 2 segment with one parity error adds an error to the pending sentence of channel 1 |
| `CaptionPipeline.PrintedIsSaid` | cc4j/src/main/java/com/knowbout/cc4j/LineBuffer.java:112-119 | from byte pairs to sentences nothing printed on a caption channel is lost, invented or reordered |
| `Decoding.VbiLine.SetValues` | cc4j/src/main/java/com/knowbout/cc4j/VBILine.java:119-123 | the pair is stored and the once-per-pair flag cleared; channels, mode and packet stay |
| `Decoding.VbiLine.ExecuteCommand` | cc4j/src/main/java/com/knowbout/cc4j/VBILine.java:140-333 | decoder, packet and listener objects go together to the states of the value-level step |
| `Decoding.VbiLine.ExecuteXds` | cc4j/src/main/java/com/knowbout/cc4j/VBILine.java:152-167 | the extended-data branch, with the error escaping before the flag is set |
| `Decoding.VbiLine.ExecuteText` | cc4j/src/main/java/com/knowbout/cc4j/VBILine.java:169-183 | printable pairs go to the open packet on field 2 and to the listener otherwise, the second character only if the first did not end in an exception |
| `Decoding.VbiLine.ExecuteControl` | cc4j/src/main/java/com/knowbout/cc4j/VBILine.java:185-333 | control codes interrupt the packet, choose channel and mode, and make one call |
| `DecoderRuns.Capture` | cc4j/src/main/java/com/knowbout/cc4j/VBILine.java:119-333 | real objects fed any stream end in the states the run functions give, so every theorem on runs is about them |
| `DecoderRuns.RunConcat` | cc4j/src/main/java/com/knowbout/cc4j/VBILine.java:140-333 | a stream may be decoded in pieces |
| `DecoderTheorems.ReExecute` | cc4j/src/main/java/com/knowbout/cc4j/VBILine.java:140-333 | a second `executeCommand` on the same pair changes no decoder state and repeats every call except the XDS update |
| `DecoderTheorems.AllListenersAgree` | cc4j/src/main/java/com/knowbout/cc4j/VBILine.java:152-191 | for any number of listeners the decoder moves once; all hear the same, XDS updates going to the first only |
| `DecoderTheorems.RepetitionInvariance` | cc4j/src/main/java/com/knowbout/cc4j/LineBuffer.java:62-77 | any control codes but backspace and extended characters sent any number of extra times leave lines, links, errors and the pending text unchanged |
| `DecoderTheorems.Demultiplexing` | cc4j/src/main/java/com/knowbout/cc4j/LineBuffer.java:79-87 | on a line-21 stream of segments that begin with a mode-setting code, a channel's listener emits what it emits with the other channels' segments removed; for a SentenceBuffer, if those have no parity errors |
| `ParityTheorems.DemultiplexingIff` | cc4j/src/main/java/com/knowbout/cc4j/LineBuffer.java:79-104 | the outputs are the same if and only if the listener is no SentenceBuffer or no other channel's segment has a parity error |
| `ParityTheorems.ForeignErrorsAreCounted` | cc4j/src/main/java/com/knowbout/cc4j/SentenceBuffer.java:251-254 | a SentenceBuffer hears exactly as many parity errors more as the other channels' segments have |
| `CommandCodes.CodeRoundTrip` | cc4j/src/main/java/com/knowbout/cc4j/VBILine.java:131-133 | whatever went before, each of the 19 command codes and 16 extended characters, sent on any data channel, becomes exactly the call of its name under that field, channel and the mode it sets |
| `CommandCodes.AttributesAreRead` | cc4j/src/main/java/com/knowbout/cc4j/VBILine.java:211-330 | mid-row and background codes carry their style or colour and last bit into the call |
| `ControlTheorems.BytesDecide` | cc4j/src/main/java/com/knowbout/cc4j/VBILine.java:185-333 | for every control code of either field, by its two bytes: the channel and the text mode it leaves, and exactly what it does to the text, link and outputs of any listener: end the line, restart, separate, erase, print one of sixteen characters, leave alone or report |
| `ControlTheorems.RowIsDelivered` | cc4j/src/main/java/com/knowbout/cc4j/LineBuffer.java:113-266 | from any state of decoder and listener, the bytes of a selecting code, the pairs of a text and the bytes of CR, EDM, any preamble code, RCL and EOC in captions or TR in text deliver exactly that text as shown, behind what a roll-up code keeps, and leave the buffer empty |
| `ControlTheorems.ShownAs` | cc4j/src/main/java/com/knowbout/cc4j/VBILine.java:342-359 | a byte shows as its seven-bit character, except ten which show as the replacements listed, whatever its parity bit |
| `ControlTheorems.PreambleIsRead` | cc4j/src/main/java/com/knowbout/cc4j/VBILine.java:193-209 | each of the fifteen rows, on either channel, with any attribute, is read from its two bytes as that row, column or colour and underline |
| `Lines.LineBuffer.ResetBuffer` | cc4j/src/main/java/com/knowbout/cc4j/LineBuffer.java:62-69 | a line if there is one, then neither text nor link |
| `Lines.LineBuffer.AddSpaceToBuffer` | cc4j/src/main/java/com/knowbout/cc4j/LineBuffer.java:71-77 | only the text changes, to that of `AddSpace`, which `RepetitionInvariance` shows to be idempotent |
| `Lines.LineBuffer.PrintCharacter` | cc4j/src/main/java/com/knowbout/cc4j/LineBuffer.java:112-169 | buffer, link object and link text change together as the link reader's function says; unselected modes change nothing |
| `Lines.LineBuffer.PrintUnicodeCharacter` | cc4j/src/main/java/com/knowbout/cc4j/LineBuffer.java:105-110 | one character more if the mode is selected; no link is looked at |
| `Lines.LineBuffer.ReportParity` | cc4j/src/main/java/com/knowbout/cc4j/LineBuffer.java:98-103 | an error on the selected mode, and on any mode for a SentenceBuffer |
| `Lines.LineBuffer.FinishLine` | cc4j/src/main/java/com/knowbout/cc4j/LineBuffer.java:241-266 | the five calls that deliver the line do so in the selected mode only |
| `Lines.LineBuffer.Separate` | cc4j/src/main/java/com/knowbout/cc4j/LineBuffer.java:190-195 | a word separator in the selected mode only |
| `Lines.LineBuffer.ReadBracket` | cc4j/src/main/java/com/knowbout/cc4j/LineBuffer.java:144-162 | an attribute is set, an exception escapes, or the link is reported or refused and the buffer emptied |
| `Lines.LineBuffer.EraseLast` | cc4j/src/main/java/com/knowbout/cc4j/LineBuffer.java:174-181 | at most the last character of the text goes |
| `Lines.LineBuffer.RestartText` | cc4j/src/main/java/com/knowbout/cc4j/LineBuffer.java:222-230 | a half-read link is thrown away, any other text is delivered |
| `Lines.LineBuffer.Receive` | cc4j/src/main/java/com/knowbout/cc4j/LineBuffer.java:98-266 | every call a line can make other than `printChar` does to the object what the handler function says |
| `XdsPackets.XdsData.SetCodes` | cc4j/src/main/java/com/knowbout/cc4j/XDSData.java:187-203 | start, matching continue and foreign continue codes, as a function of the packet state, and whether a packet is open after |
| `XdsPackets.XdsData.ResetPacketState` | cc4j/src/main/java/com/knowbout/cc4j/XDSData.java:342-346 | no class, no open packet, no text; type and fields stay |
| `XdsPackets.XdsData.InterruptPacket` | cc4j/src/main/java/com/knowbout/cc4j/XDSData.java:205-207 | the packet is closed for the time being and keeps class, type and text |
| `XdsPackets.XdsData.Add` | cc4j/src/main/java/com/knowbout/cc4j/XDSData.java:348-354 | the first byte is kept, the second if it is not zero |
| `XdsPackets.XdsData.End` | cc4j/src/main/java/com/knowbout/cc4j/XDSData.java:209-251 | the summing loop and the switch accept and store as the packet function says; an unknown class is an error |
| `XdsPackets.XdsData.VbiToUnicodeString` | cc4j/src/main/java/com/knowbout/cc4j/XDSData.java:253-260 | the buffer itself is overwritten by its mapped characters, position by position |
| `XdsPackets.XdsData.Current` | cc4j/src/main/java/com/knowbout/cc4j/XDSData.java:262-291 | which field changes, which fields are mapped, and that an unhandled type changes nothing |
| `XdsPackets.XdsData.ChannelInfo` | cc4j/src/main/java/com/knowbout/cc4j/XDSData.java:299-316 | the same for the channel class |
| `XdsTheorems.ReachableStatesAreSound` | cc4j/src/main/java/com/knowbout/cc4j/XDSData.java:248-249 | on every stream control is 0 or one of the seven classes and an open packet has a class, so the error called impossible is unreachable |
| `XdsTheorems.BufferIsWhatArrived` | cc4j/src/main/java/com/knowbout/cc4j/XDSData.java:187-207 | on every stream, until the packet is accepted, its buffer is exactly what arrived in it since the start code |
| `XdsTheorems.PacketRun` | cc4j/src/main/java/com/knowbout/cc4j/VBILine.java:152-191 | a packet broken any number of times stores its payload or nothing, and listeners hear exactly the captions in between |
| `XdsTheorems.PacketRoundTrip` | cc4j/src/main/java/com/knowbout/cc4j/XDSData.java:187-291 | with the right checksum the field becomes exactly the payload sent, mapped where the code maps, and is announced once |
| `XdsTheorems.DamagedPacketIsDropped` | cc4j/src/main/java/com/knowbout/cc4j/XDSData.java:213-224 | any one payload byte replaced by another 7-bit one leaves every field unchanged and nobody is told |
| `XdsFieldTheorems.FieldIsStored` | cc4j/src/main/java/com/knowbout/cc4j/XDSData.java:262-316 | for each of the seven pairs of class and type bytes, over the byte stream with captions in between: if all bytes add up to 0 modulo 128 that field becomes the payload, as shown for five and as sent for two, every other field stays, and that field alone is announced behind the captions |
| `XdsFieldTheorems.OtherPacketIsSilent` | cc4j/src/main/java/com/knowbout/cc4j/XDSData.java:209-340 | any other pair, or bytes that do not add up: no field changes and listeners hear the captions alone |
| `XdsFieldTheorems.ForeignContinueGivesUp` | cc4j/src/main/java/com/knowbout/cc4j/XDSData.java:187-203 | after a continue code of another packet, whatever arrives until a start code changes no field and announces nothing |
| `XdsFieldTheorems.PacketOutlivesItsEnd` | cc4j/src/main/java/com/knowbout/cc4j/XDSData.java:253-291 | an accepted packet keeps class, type and open flag, and its buffer is what was stored |
| `Itv.ItvLink.SetAttributeFrom` | cc4j/src/main/java/com/knowbout/cc4j/ITVLink.java:49-101 | which field an attribute sets, by its first letter alone, and when it ends in an exception, leaving the link as it was |
| `Itv.ItvLink.Checksum` | cc4j/src/main/java/com/knowbout/cc4j/ITVLink.java:103-130 | the loop in 32-bit arithmetic answers as `Accepts` does, for any text and any checksum string |
| `Itv.FoldAllCongruent` | cc4j/src/main/java/com/knowbout/cc4j/ITVLink.java:113-114 | end-around carry keeps the sum modulo 65535 and is 0 only for 0 |
| `Itv.ChecksumAddsUpToOnes` | cc4j/src/main/java/com/knowbout/cc4j/ITVLink.java:113-117 | data and RFC 1071 checksum add up to all ones, the receiver's test of that standard |
| `Itv.CodeSumIsWordSum` | cc4j/src/main/java/com/knowbout/cc4j/ITVLink.java:104-111 | the loop's wrapping sum is the sum of 16-bit words while it fits an int |
| `Itv.AcceptsOneFold` | cc4j/src/main/java/com/knowbout/cc4j/ITVLink.java:103-130 | what is accepted is exactly the complement of the sum folded once, and the fold is congruent to the word sum modulo 65535 |
| `Itv.AcceptsRfcIffFoldsOnce` | cc4j/src/main/java/com/knowbout/cc4j/ITVLink.java:103-130 | the RFC 1071 checksum is accepted if and only if the two halves of the sum add up to at most 65535 |
| `Itv.SecondCarryIsRefused` | cc4j/src/main/java/com/knowbout/cc4j/ITVLink.java:113-114 | a ten-letter text whose correct checksum is refused |
| `Itv.NegativeIsAccepted` | cc4j/src/main/java/com/knowbout/cc4j/ITVLink.java:113-123 | for the same text the negative number that the single fold yields is accepted |
| `Itv.HexRoundTrip` | cc4j/src/main/java/com/knowbout/cc4j/ITVLink.java:120 | four printed hexadecimal digits parse back to the number |
| `ItvTheorems.LinkRoundTrip` | cc4j/src/main/java/com/knowbout/cc4j/LineBuffer.java:113-169 | from any prior state, text restart, a printed link and its RFC 1071 checksum deliver an equal link if one fold is enough and a checksum error if not, and empty the buffer |
| `ItvTheorems.PrintedLinkIsRead` | cc4j/src/main/java/com/knowbout/cc4j/ITVLink.java:172-203 | the same with the checksum printed as four digits |
| `ItvAttributes.LinkIsUnderstood` | cc4j/src/main/java/com/knowbout/cc4j/ITVLink.java:49-101 | over the byte stream, from any prior state: text restart, a URL, any number of attributes with keys of any length in either case and the checksum in digits of either case deliver a link with the last value of each attribute, types p, n, s, o and a spelt out, other single letters and unknown keys ignored; a checksum error if the sum carries twice |
| `ItvAttributes.EmptyTypeThrows` | cc4j/src/main/java/com/knowbout/cc4j/ITVLink.java:67-71 | a type without a value ends in an exception and leaves the link as it was |
| `ItvAttributes.SecondCharacterIsLost` | cc4j/src/main/java/com/knowbout/cc4j/VBILine.java:177-180 | the exception leaves before the second character of the pair is printed |
| `ItvAttributes.ErasedLinkIsInvalid` | cc4j/src/main/java/com/knowbout/cc4j/LineBuffer.java:121-130 | a link erased by backspaces is reported as invalid when the next one begins |
| `PushPipe.ItemRoundTrip` | cc4j/src/main/java/com/knowbout/cc4j/VBIDevice.java:163-164 | two ints written as eight bytes are read back, negative ones included |
| `PushPipe.PipeSafety` | cc4j/src/main/java/com/knowbout/cc4j/VBIDevice.java:107-166 | over all interleavings, buffer sizes and numbers of readers, pairs delivered are an order-preserving subsequence of those pushed, never halves of two, and every pair is accounted for |
| `PushPipe.ProducerNeverBlocksOnPipe` | cc4j/src/main/java/com/knowbout/cc4j/VBIDevice.java:149-166 | with buffer sizes from 1 to 1024, changed at any time, the producer never waits for room or for bytes to drop |
| `PushPipe.BacklogIsBounded` | cc4j/src/main/java/com/knowbout/cc4j/VBIDevice.java:149-166 | over all runs with sizes between low and high the pipe never holds more than 1007 bytes or the whole pairs that high rounds up to, and a pair is dropped only from a backlog of at least low bytes |
| `PushPipeRuns.ProducerCanBlockIff` | cc4j/src/main/java/com/knowbout/cc4j/VBIDevice.java:157-160 | a run that blocks the producer on the pipe exists if and only if the buffer size is not between 1 and 1024 |
| `PushPipe.DeadlockNeeds125Reads` | cc4j/src/main/java/com/knowbout/cc4j/VBIDevice.java:150-156 | a reader waiting for data inside the monitor the producer waits for means at least 125 pairs were read since the check |
| `PushPipeRuns.DeadlockAfter125Reads` | cc4j/src/main/java/com/knowbout/cc4j/VBIDevice.java:150-156 | a run with exactly 125 that deadlocks, for every buffer size |
| `PushPipe.DeadlockIsForEver` | cc4j/src/main/java/com/knowbout/cc4j/VBIDevice.java:150-156 | after it nothing is pushed, delivered or dropped any more |
| `PushPipe.OnlyDeadlockStops` | cc4j/src/main/java/com/knowbout/cc4j/VBIDevice.java:149-166 | short of it, a busy producer or the reader it waits for always has a next step |
| `CaptionStores.CaptionStore.Remove` | ccdataweb/src/main/java/com/appeligo/ccdataweb/CaptionStoreImpl.java:95-101 | the backward search removes the last occurrence and nothing else |
| `CaptionStores.CaptionStore.Touch` | ccdataweb/src/main/java/com/appeligo/ccdataweb/CaptionStoreImpl.java:91-104 | the list becomes itself with the file moved to its end |
| `CaptionStores.CaptionStore.EvictLeastRecentIndex` | ccdataweb/src/main/java/com/appeligo/ccdataweb/CaptionStoreImpl.java:73-77 | the oldest index goes; as written the count drops and nothing is closed, repaired the document goes too |
| `CaptionStores.CaptionStore.MakeRoomForDocument` | ccdataweb/src/main/java/com/appeligo/ccdataweb/CaptionStoreImpl.java:66-70 | at the limit the oldest document is closed, or the empty list faults |
| `CaptionStores.CaptionStore.GetCaptionFile` | ccdataweb/src/main/java/com/appeligo/ccdataweb/CaptionStoreImpl.java:60-120 | cache, both lists and the count after any request, granted, failed or faulting, are those of the value-level store |
| `CaptionStoreTheorems.GetKeeps` | ccdataweb/src/main/java/com/appeligo/ccdataweb/CaptionStoreImpl.java:60-120 | every request keeps the invariants of the code as written and of the repaired code, and a granted file is cached and open |
| `CaptionStoreTheorems.ExactLru` | ccdataweb/src/main/java/com/appeligo/ccdataweb/CaptionStoreImpl.java:72-118 | on every run the cache holds exactly the last maxCachedIndexes distinct paths granted, in recency order without duplicates |
| `CaptionStoreTheorems.FaultFreeIffSafe` | ccdataweb/src/main/java/com/appeligo/ccdataweb/CaptionStoreImpl.java:65-86 | for all configurations and requests whose files open, the code as written never faults if and only if a condition on the limits and the number of distinct paths holds |
| `CaptionStoreTheorems.RepairedBound` | ccdataweb/src/main/java/com/appeligo/ccdataweb/CaptionStoreImpl.java:65-118 | repaired, on every run even with failing opens: no fault, at most maxOpenDocuments open, each of them a cached file, counted exactly and listed once in recency order, granted files open |
| `CaptionStoreTheorems.RepairedExact` | ccdataweb/src/main/java/com/appeligo/ccdataweb/CaptionStoreImpl.java:81-104 | repaired, when all opens succeed, the open documents are the most recently used files, as many as the limit allows |
| `CaptionFiles.CaptionFile.ReadLine` | ccdataweb/src/main/java/com/appeligo/ccdataweb/CaptionFile.java:181 | the line at the file pointer and the pointer behind its terminator, one of three kinds |
| `CaptionFiles.CaptionFile.CreateIndex` | ccdataweb/src/main/java/com/appeligo/ccdataweb/CaptionFile.java:253-275 | the reading loop builds the index of the document's lines, or fails exactly when some anchor has no number |
| `CaptionFiles.CaptionFile.SortKeys` | ccdataweb/src/main/java/com/appeligo/ccdataweb/CaptionFile.java:195-198 | an ascending list of exactly the index's keys, kept for later queries |
| `CaptionFiles.CaptionFile.Ceiling` | ccdataweb/src/main/java/com/appeligo/ccdataweb/CaptionFile.java:193-206 | the least key not before the start, if there is one |
| `CaptionFiles.CaptionFile.Floor` | ccdataweb/src/main/java/com/appeligo/ccdataweb/CaptionFile.java:208-223 | the greatest key not after the end, if there is one |
| `CaptionFiles.CaptionFile.GetSentences` | ccdataweb/src/main/java/com/appeligo/ccdataweb/CaptionFile.java:185-242 | the answer is that of reading between the positions of those two keys, or the exception the code ends in |
| `CaptionFiles.CaptionFile.ReadSentences` | ccdataweb/src/main/java/com/appeligo/ccdataweb/CaptionFile.java:225-241 | the do loop collects what the recursive reading collects and ends in the same error |
| `CaptionFiles.CaptionFile.GetSentence` | ccdataweb/src/main/java/com/appeligo/ccdataweb/CaptionFile.java:172-183 | the parsed line at the indexed position, nothing for an unknown timestamp |
| `CaptionFileTheorems.ReadRangeIsReadAll` | ccdataweb/src/main/java/com/appeligo/ccdataweb/CaptionFile.java:227-239 | seeking to one line's offset and reading to another's yields exactly the anchors between them |
| `CaptionFileTheorems.RangeQuery` | ccdataweb/src/main/java/com/appeligo/ccdataweb/CaptionFile.java:185-242 | with increasing timestamps and one in the range, the answer is that of a scan of the whole document; and which exception it is otherwise |
| `CaptionFileTheorems.ScanIsSentencesOrBadLine` | ccdataweb/src/main/java/com/appeligo/ccdataweb/CaptionFile.java:236-239 | a scan never is the unexpected-position error, so neither is such a query |
| `CaptionDocuments.FileWriter.WriteSentence` | channelfeed/src/main/java/com/appeligo/channelfeed/work/FileWriter.java:72-93 | the body grows by a division if the caption type has changed, the anchor line and a paragraph line, and stays a document of valid lines |
| `CaptionDocuments.ReadBack` | ccdataweb/src/main/java/com/appeligo/ccdataweb/CaptionFile.java:172-275 | any document of printed sentences and other lines, with any of the three line ends, is indexed; a timestamp yields the sentence last written with it, without its speaker; with increasing timestamps a range yields exactly the sentences in it in order, or the error that an empty range ends in |
| `ResultCaches.DataSource.AddCacheElem` | ccdataweb/src/main/webapp/lib/YahooUI/autocomplete/autocomplete-debug.js:2330-2344 | a full cache loses its oldest element; one without a query is not added |
| `ResultCaches.DataSource.MatchesPrefix` | ccdataweb/src/main/webapp/lib/YahooUI/autocomplete/autocomplete-debug.js:2402-2406 | the loop finds the key if and only if it is a proper prefix of the query |
| `ResultCaches.DataSource.FilterRecords` | ccdataweb/src/main/webapp/lib/YahooUI/autocomplete/autocomplete-debug.js:2410-2423 | unshifting from the last to the first yields the matching records in their order |
| `ResultCaches.DataSource.DoQueryCache` | ccdataweb/src/main/webapp/lib/YahooUI/autocomplete/autocomplete-debug.js:2358-2447 | results, cache and callback are those of searching the newest element that answers |
| `ResultCaches.DataSource.Query` | ccdataweb/src/main/webapp/lib/YahooUI/autocomplete/autocomplete-debug.js:2144-2154 | cache and calls after a query, live or cached, are those of the value-level source |
| `ResultCaches.DataSource.Live` | ccdataweb/src/main/webapp/lib/YahooUI/autocomplete/autocomplete-debug.js:2970-2989 | a live answer is cached under the decoded query and passed on; a null answer is an error and caches nothing |
| `ResultCacheMatching.FilterIsSelect` | ccdataweb/src/main/webapp/lib/YahooUI/autocomplete/autocomplete-debug.js:2410-2423 | filtering the results of a prefix gives the results of the query |
| `ResultCacheTheorems.QueryCacheIsLive` | ccdataweb/src/main/webapp/lib/YahooUI/autocomplete/autocomplete-debug.js:2358-2447 | if the live source is as the cache takes it to be, a cached answer is the live answer and every element stays what the live source would say |
| `ResultCacheTheorems.CallsOfQuery` | ccdataweb/src/main/webapp/lib/YahooUI/autocomplete/autocomplete-debug.js:2144-2154 | the exact calls of a query: the cached answer alone; cached, live query and live answer if and only if an element serves the query and the result is empty; live alone otherwise |
| `ResultCacheTheorems.CallsOfRun` | ccdataweb/src/main/webapp/lib/YahooUI/autocomplete/autocomplete-debug.js:2358-2447 | the same for every query of every run, and the cache never exceeds its limit |
| `ResultCacheTheorems.UndefinedInRun` | ccdataweb/src/main/webapp/lib/YahooUI/autocomplete/autocomplete-debug.js:2369-2372 | in any run the callback is given an undefined query if and only if the answer is a cached one and `queryMatchCase` is set |
| `ResultCacheTheorems.TransparentIffCacheable` | ccdataweb/src/main/webapp/lib/YahooUI/autocomplete/autocomplete-debug.js:2358-2447 | for any live source at all: no run can tell that there is a cache if and only if the source ignores case where the cache does and, under subset matching, narrows by filtering |
| `ResultCacheTheorems.CacheIsTransparent` | ccdataweb/src/main/webapp/lib/YahooUI/autocomplete/autocomplete-debug.js:2144-2154 | over all runs of queries in unreserved characters every callback gets the live results in order |
| `ResultCacheMatching.PlainTextIsTransparentIff` | ccdataweb/src/main/webapp/lib/YahooUI/autocomplete/autocomplete-debug.js:2412-2419 | a source that looks at keys as they are: over all runs the cache is transparent if and only if it is off, does not match subsets, matches beginnings, or no key has an escape that a query can read on into after its first letter |
| `ResultCacheMatching.EncodedKeysAreTransparent` | ccdataweb/src/main/webapp/lib/YahooUI/autocomplete/autocomplete-debug.js:2412-2419 | a source that matches encoded keys as the cache does: transparent with any options and any cache size |
| `ResultCacheMatching.UnreservedKeysAreHarmless` | ccdataweb/src/main/webapp/lib/YahooUI/autocomplete/autocomplete-debug.js:2412-2419 | keys that need no encoding always meet that condition |
| `ResultCacheMatching.EscapesAreMatched` | ccdataweb/src/main/webapp/lib/YahooUI/autocomplete/autocomplete-debug.js:2412-2419 | an instance: a key with a space does not meet it, and the two queries for which the cache answers what the live source does not |
| `ResultCacheTheorems.SecondTimeIsCached` | ccdataweb/src/main/webapp/lib/YahooUI/autocomplete/autocomplete-debug.js:2383-2398 | a query with results, asked again, does not reach the live source |
| `ResultCacheTheorems.FailureIsNotCached` | ccdataweb/src/main/webapp/lib/YahooUI/autocomplete/autocomplete-debug.js:2970-2989 | a query the live source fails on is reported, leaves the cache as it was and is sent again the next time |
| `ResultCacheLru.HitMoves` | ccdataweb/src/main/webapp/lib/YahooUI/autocomplete/autocomplete-debug.js:2383-2398 | without subset matching the newest element with the key is moved to the new end as it is and answers alone |
| `ResultCacheLru.CacheIsLru` | ccdataweb/src/main/webapp/lib/YahooUI/autocomplete/autocomplete-debug.js:2330-2398 | without subset matching, after any run of queries with results, the cache holds exactly the last maxCacheEntries distinct queries in the order in which they were last asked |
| `Beziers.GetPosition` | ccdataweb/src/main/webapp/lib/YahooUI/animation/animation.js:620-637 | overwriting the array in place, round by round, yields the tip of de Casteljau's triangle |
| `Beziers.PositionIsBernstein` | ccdataweb/src/main/webapp/lib/YahooUI/animation/animation.js:628-633 | that tip is the Bernstein polynomial of any number of points |
| `Beziers.StaysInBox` | ccdataweb/src/main/webapp/lib/YahooUI/animation/animation.js:617-637 | for t from 0 to 1 the curve stays in every box that holds its points |
| `Beziers.HitsEnds` | ccdataweb/src/main/webapp/lib/YahooUI/animation/animation.js:612-613 | it starts at the first point and ends at the last |
| `Beziers.ReversalSymmetry` | ccdataweb/src/main/webapp/lib/YahooUI/animation/animation.js:620-637 | reversing the points and t changes nothing |
| `Animations.Tween.Correct` | ccdataweb/src/main/webapp/lib/YahooUI/animation/animation.js:580-599 | the field ends at the frame of `CorrectFrame`, about which `CorrectionKeepsTime` is proved |
| `Animations.Tween.Advance` | ccdataweb/src/main/webapp/lib/YahooUI/animation/animation.js:554-560 | one tick of the object, its frame shown once |
| `Animations.AnimMgr.Animate` | ccdataweb/src/main/webapp/lib/YahooUI/animation/animation.js:302-310 | an idle animation joins the end of the queue at frame 0, a running one is refused, and the queue stays valid |
| `Animations.AnimMgr.GetIndex` | ccdataweb/src/main/webapp/lib/YahooUI/animation/animation.js:565-572 | the first place of the animation, or -1 if and only if it is not queued |
| `Animations.AnimMgr.Stop` | ccdataweb/src/main/webapp/lib/YahooUI/animation/animation.js:502-541 | exactly its place goes, the others keep state and order, and the interval stops when none is left |
| `Animations.AnimMgr.Run` | ccdataweb/src/main/webapp/lib/YahooUI/animation/animation.js:547-563 | the loop with the length read once, over objects spliced out while it runs, does what `Sweep` says and keeps the queue valid |
| `AnimationTheorems.CorrectionKeepsTime` | ccdataweb/src/main/webapp/lib/YahooUI/animation/animation.js:580-599 | the frame shown is the one the clock stands at, rounded and short of the last, unless that is no step forward |
| `AnimationTheorems.ShownIsNearest` | ccdataweb/src/main/webapp/lib/YahooUI/animation/animation.js:580-599 | a frame jumped to is at most half a frame ahead of the clock, and short of the last one the frame shown is less than half a frame behind it |
| `AnimationTheorems.EveryFrameIsShown` | ccdataweb/src/main/webapp/lib/YahooUI/animation/animation.js:302-310 | a frame-based animation shows each of its frames once, one a tick |
| `AnimationTheorems.AnimationEnds` | ccdataweb/src/main/webapp/lib/YahooUI/animation/animation.js:302-310 | a time-based animation has 200 frames a second and, for any clock readings, shows strictly increasing frames, never passes totalFrames, and is on it after totalFrames ticks |
| `AnimationTheorems.SweepProgress` | ccdataweb/src/main/webapp/lib/YahooUI/animation/animation.js:547-563 | one run call keeps the running ones sound, completes only finished ones, loses none, and always makes progress |
| `AnimationTheorems.QueueRunsOut` | ccdataweb/src/main/webapp/lib/YahooUI/animation/animation.js:547-563 | the whole queue empties within the frames to come plus one call for each animation, every one having shown its last frame |
| `AnimationTheorems.StartedRunOut` | ccdataweb/src/main/webapp/lib/YahooUI/animation/animation.js:302-310 | animations as `animate` registers them are all completed, on their last frames, after the sum of their frames plus one call each |
| `AnimationTurns.EveryoneTicks` | ccdataweb/src/main/webapp/lib/YahooUI/animation/animation.js:547-563 | when all have frames left each gets exactly one tick, with its own clock reading |
| `AnimationTurns.NeighbourMissesTurn` | ccdataweb/src/main/webapp/lib/YahooUI/animation/animation.js:547-563 | the animation behind the first completed one is left untouched in that call |
| `AnimationTurns.EveryTurnTakenIff` | ccdataweb/src/main/webapp/lib/YahooUI/animation/animation.js:547-563 | one run call ticks or completes every animation if and only if all but the last have frames left |

## Left out

- SplitterTheorems.ChevronIsABreak: for plain text before the chevrons and a text without colon or trailing blanks behind them; with filtering on, without a sound effect.
- SplitterTheorems.EffectBecomesSpace: for a line without line terminators, which a line without control characters has only outside ASCII.
- CaptionDocuments.ReadBack: names and sentences are given as `escapeHtml` leaves them, without `<`, `>` and line terminators; the reader does not undo the escapes. A sentence without a speaker is not empty, as `SentenceBuffer` delivers none.
- ItvAttributes.LinkIsUnderstood: at least one attribute, printable keys and values without brackets, at most 131590 characters; a type without a value is ItvAttributes.EmptyTypeThrows.
- ResultCacheLru.CacheIsLru: queries in unreserved characters that have results; a query without results is asked live each time and adds another element with its key.
- `FileWriter`: opening, closing and copying files, the head of the document and its XDS metadata, which are lines without anchors here.
- ItvTheorems.LinkRoundTrip: for printed links of at most 131590 characters, the length up to which a 7-bit text cannot overflow the int sum; values are printable and free of brackets, the URL of `>`, a link has an attribute, and a type has two characters or more.
- CaptionPipeline.PrintedIsSaid: only with filtering off, for streams without backspace and unprintable bytes on the channel, and not for TEXT2, where links are taken out of the text.
- SentenceTheorems.Conservation: filtering off, because sound effects are meant to be lost.
- SentenceTheorems.LineBreakInvariance: for plain lines (trimmed, not empty, no controls, `:` or `>>`); with filtering on, without a sound effect inside or across lines. The same holds for SentenceTheorems.AnyTwoLayoutsAgree.
- SentenceExactness.SentencesAreExact: for plain lines, and with filtering on for lines without an opening bracket.
- ResultCacheMatching.PlainTextIsTransparentIff: `encodeURIComponent` is any function that works character by character, leaves unreserved characters alone and turns others into escapes; lone surrogates, for which it throws, are not modelled.
- DecoderTheorems.Demultiplexing: line 21 only; errors for unknown control codes are reported whatever the mode and are not compared. What holds with parity errors is in ParityTheorems.DemultiplexingIff and CaptionPipeline.SentencesIgnoreOtherChannels.
- Decoding.VbiLine.ExecuteCommand: an exception of the listener ends the call; the runs assume a caller that goes on with the next pair.
- XdsTheorems.PacketRun: line 284 only. One `VBILine` for both fields shares `textMode`, and a control code of field 1 interrupts the packet of field 2; nothing is promised for that use.
- AnimationTheorems.QueueRunsOut: animations are values in the theorem; the objects are tied to them by `Animations.AnimMgr.Run`. Listeners that stop or start animations while the loop runs are not modelled.
- Floating point: animation times and curve coordinates are real numbers; frame-based durations are whole numbers of frames.
- Easing functions and attribute values: formulas without state; the elastic ones need sine and arcsine.
- Inheritance: `SentenceBuffer` is a separate class here, not a subclass of `LineBuffer`; their composition is at the level of values (`CaptionPipeline`), with the overridden `parityError` as a flag of the line buffer.
- Native devices: `VBIDevice.close`, `finalize`, the native reading path and the dead-writer exceptions of the pipe. `VBIDevice` is a state machine because two threads share it; `flush` is not modelled.
- Character tables: `Character.isLetter` is exact up to U+00FF, lower case is that of ASCII, surrogate pairs are single characters.
- Number parsing: a leading plus sign is refused by `Integer.parseInt` and `Long.parseLong`, as in the Java versions of the time.
- `XDSData` calendar conversions and name tables, getters and setters without logic.
- `CaptionFile` as the store sees it: its path and whether its document is open. A caller that keeps a file after eviction, the file system, gzip, the serialized index and its modification times, and the document-not-opened check are left out. `getSentence` returns null where the model returns no sentences.
- `CaptionStoreImpl`: the lock, the configuration and the constructor's exception cases other than a document that cannot be opened.
- AutoComplete: the widget, XHR sources and events. URI encoding, decoding and the live source are parameters; results are values, so a callback that changes its array does not change the cache.
- `Indexer`, `SpellIndexer`, servlets and page scripts: external libraries and plumbing.
