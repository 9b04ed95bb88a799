# sip3 in Dafny

A model of the core of sip3, a SIP server with a registrar, a call proxy, an RTP
media relay, voicemail and conferences, and proofs about that model.
`dafny verify dfyconfig.toml` (Dafny 4.11) checks the whole project.

| files | what they model |
|---|---|
| `VoicemailState`, `CallRace`, `RecordingSlot`, `TimerOutcomes`, `CallTables`, `RaceLimits` | one Call-ID as a race between the INVITE handler, the no-answer timer, callee responses, CANCEL, BYE, ACK, voicemail deliveries and recorders; one step is one lock acquisition or one message to the caller |
| `Dialogs` | the dialog and media tables of all calls, one handler at a time |
| `RelayPorts`, `RelaySessions`, `VoicemailPorts` | binding UDP ports and owning them for the life of a session |
| `SdpLine`, `SdpRewrite`, `SdpPreservation`, `SdpAddresses` | rewriting session descriptions for the media relay, character by character |
| `SdpOffer`, `SdpAnswer` | offer/answer of the conference and the voicemail endpoint |
| `SipMessages`, `Forwarding`, `ProxyVias`, `Framing`, `Framed`, `RelayedLength` | parsing and printing SIP messages, forwarding an INVITE, taking the proxy's Via out of a response, messages on a stream, and the length of a relayed answer |
| `G711`, `Rtp`, `ConferenceMixer`, `ConferenceRoom`, `Dtmf` | the codecs, RTP packets, the mixer tick and the `*6` mute machine |
| `Wav` | the recording format |
| `RateLimit`, `AuthGuard` | sliding windows against their full history |
| `Text`, `Options` | strings as Rust sees them (whitespace, lines, tokens, decimal numbers, UTF-8 size), optional values, saturating time differences |

Objects that the server updates in place are classes whose methods are proved
against functions of the old state; loops are methods with invariants proved
against recursive functions.  The theorems are lemmas about those functions.
Time, random numbers, database answers, the ports other processes hold, the MD5
branch suffix and the iteration order of hash maps are parameters, so every
statement is for all of their values.

## Where the code and its promise part

Each of these has a lemma with a run or input that shows it, and a theorem that
says when the promise holds, as an equivalence where the text says "exactly".

- A final response that passes its gate before the timer entry is installed is
  relayed, and the timer may still answer the caller itself: a run in
  `EarlyFinalGetsBoth`, and from every state where such a response stands at its
  gate in `EarlyFinalMayGetBoth`.  One that passes later never comes together
  with the timer's answer (`NeverBothResponses`).
- A CANCEL that finds the call already delivered to voicemail marks the
  recording but does not stop the timer's answer (`VoicemailCancelStillAnswers`).
  Whichever handler cancels, the answer is ruled out exactly when the entry is
  not left firing (`CancellationExact`).
- Two INVITEs under one Call-ID can lead to two answers from timers
  (`ReinviteAnswersTwice`), but never to more answers than INVITEs
  (`AnswersBounded`).
- Handlers that interleave can leave a relay session (`LateAllocationLeaks`) or a
  pending dialog (`StalePendingDialog`) without an active dialog.
  `ConsistentExactly` says from which states on that can happen,
  `UndisturbedConsistent` that it cannot in a run where no handler is halfway
  through its drops while the INVITE makes its entries.
- Allocating media for a live Call-ID drops the old sockets' owner without
  closing them (`ReallocationLeaks`); ports leak exactly then
  (`LeaksOnlyByReplacing`).
- The relay's pair search can fail although a pair is free: with an odd range
  width (`OddWidthMisses`), and when the 32-bit counter wraps inside the search
  (`WrapMisses`).  It fails only when it must exactly for an even width and a
  walk that does not jump (`BindFailsOnlyWhenFull`), that is, no wrap inside the
  search or a width that divides the counter's range; and exactly then it tries
  every pair (`CoversExactly`), none twice (`RepeatsExactly`).
- An m= line with a leading space, a tab or two spaces is read one way and
  rewritten another (`IrregularLines`); `RewriteExact` gives the exact set of
  lines that are rewritten as they are read, and `StandardIsRegular` says that
  the form of section 5.14 of RFC 4566 is among them.
- Rewriting a description drops a trailing blank line (`BlankEndDropped`), so
  rewriting twice is rewriting once exactly without one (`RewriteTextTwice`).
- A header whose last folded line is blank is read with a space at its end and
  forwarded without it (`BlankFoldShortened`); a header comes through unchanged
  exactly when none of its values begins or ends in whitespace
  (`ValuesUnchanged`).
- The length of a relayed 200 OK whose description was replaced is rewritten in
  its long form only.  A compact `l:` line stays and is read first
  (`CompactStays`); a stream reader finds the whole message exactly when no such
  length can be read or it happens to be right (`RelayedReadBack`).
- The mixer's 32-bit sum is exact up to 65536 talkers (`NoOverflow`) and can
  flip sign with one more (`OverflowBeyond`).

Two things to know when reading the source beside the model.  A forwarded INVITE
carries only the proxy's own Record-Route; those of earlier proxies are not
kept.  And the doc comment at backend/src/sip/media.rs:457-466 speaks of the
first audio section only, while the code rewrites every section in the port
list, and all connection lines when every section is audio or video; the model
follows the code.

## Model

| member | source | states |
|---|---|---|
| VoicemailState.Voicemail.CancelNoAnswerTimer | backend/src/sip/voicemail.rs:918-937 | a ringing entry is removed and reported canceled, a firing one is reported as already fired and kept, a canceled one kept; no other call's entry changes |
| VoicemailState.Voicemail.CancelNoAnswerTimerForCallerCancel | backend/src/sip/voicemail.rs:939-965 | a ringing entry is removed, a firing one becomes canceled; no other call's entry changes |
| VoicemailState.Voicemail.InstallTimer | backend/src/sip/voicemail.rs:1083-1098 | the call's entry becomes ringing for this task, replacing what was there |
| VoicemailState.Voicemail.ClaimToFire | backend/src/sip/voicemail.rs:1324-1334 | only a ringing entry can be claimed, and it is firing afterwards |
| VoicemailState.Voicemail.ShouldContinue | backend/src/sip/voicemail.rs:1348-1353 | true exactly for a firing entry |
| VoicemailState.Voicemail.FinishTimer | backend/src/sip/voicemail.rs:1106-1108 | the call has no entry afterwards; other calls keep theirs |
| VoicemailState.Voicemail.TrackRecording | backend/src/sip/voicemail.rs:1439-1448 | a free recording slot is taken, a taken one refused; other calls are untouched |
| VoicemailState.Voicemail.DiscardRecording | backend/src/sip/voicemail.rs:1450-1461 | slot and mark are cleared if this delivery took them, else nothing changes |
| VoicemailState.Voicemail.MarkRecordingCanceled | backend/src/sip/voicemail.rs:1463-1474 | a mark is put only on a taken slot |
| VoicemailState.Voicemail.ShouldPersist | backend/src/sip/voicemail.rs:1476-1483 | slot and mark are cleared and the answer is whether there was no mark |
| CallRace.NeverBothResponses | backend/src/sip/voicemail.rs:1002-1099 | in every interleaving with one INVITE the timer answers at most once, and never at all if a final response that passed its gate after the installation was relayed |
| TimerOutcomes.EarlyFinalMayGetBoth | backend/src/sip/handler.rs:362-380 | from every reachable state in which a final response stands at its gate before the installation, with the caller known and a timer to come, some continuation gives the caller both |
| TimerOutcomes.CancellationExact | backend/src/sip/voicemail.rs:918-965 | a cancellation of either kind between installation and second check keeps the timer from answering in every continuation exactly when it does not leave the entry firing |
| TimerOutcomes.AnswersBounded | backend/src/sip/voicemail.rs:1002-1099 | over every run with any number of INVITEs timers answer at most once for each |
| TimerOutcomes.DrivenRun | backend/src/sip/voicemail.rs:1324-1353 | in every run an entry that is firing has a timer task behind it that has not given up, until it has answered |
| CallTables.ConsistentExactly | backend/src/sip/proxy.rs:308-434 | from a state on, every continuation that comes to rest has its pending dialog and media under an active dialog exactly when the INVITE has made its entries and the steps owed by running handlers do not drop the active dialog and leave something else |
| CallTables.UndisturbedConsistent | backend/src/sip/proxy.rs:757-821 | in every run with one INVITE in which no handler is halfway through its drops while the INVITE makes its entries, every state at rest is consistent |
| CallTables.OpenIsUnsafe | backend/src/sip/proxy.rs:415-434 | as long as the INVITE has an entry to make, some continuation ends with media and no dialog |
| CallRace.RaceRun | backend/src/sip/handler.rs:353-447 | the invariant behind it holds after every run: one INVITE handler, one timer, and who may still send what |
| CallRace.FiringOnlyFromRinging | backend/src/sip/voicemail.rs:1324-1334 | the only step that makes a timer fire is its own claim of a ringing entry; nothing leads from canceled to firing |
| CallRace.CallerCancelSuppresses | backend/src/sip/proxy.rs:757-761 | a proxied CANCEL that takes the timer lock after installation and before the second check means the timer never answers, whatever else interleaves before or after |
| RaceLimits.EarlyFinalGetsBoth | backend/src/sip/handler.rs:353-393 | a run in which a final response overtakes the installation and the caller gets both |
| RaceLimits.VoicemailCancelStillAnswers | backend/src/sip/voicemail.rs:1063-1081 | a run in which a CANCEL handled by voicemail before the second check does not stop the answer |
| RaceLimits.ReinviteAnswersTwice | backend/src/sip/voicemail.rs:1083-1098 | a run in which two INVITEs under one Call-ID get two answers |
| RaceLimits.LateAllocationLeaks | backend/src/sip/proxy.rs:308-434 | a run that ends with a relay session, no dialog and no task left |
| RaceLimits.StalePendingDialog | backend/src/sip/proxy.rs:757-821 | a run with one INVITE and one CANCEL that ends with a pending dialog, no active one and no task left |
| RecordingSlot.OneHolder | backend/src/sip/voicemail.rs:1405-1483 | after every run a mark is on a taken slot, and the slot is taken exactly while one delivery or recorder is live |
| RecordingSlot.MarkedMeans | backend/src/sip/voicemail.rs:1463-1474 | the recorded history flag is true exactly when some step marked the slot since it was last taken |
| RecordingSlot.CompletionDecides | backend/src/sip/voicemail.rs:1200-1266 | a finishing recorder hands its file to the database exactly when it has positive length and was not marked since its own slot was taken |
| Dialogs.ReachableConsistent | backend/src/sip/proxy.rs:308-434 | in every reachable state the keys of pending dialogs, relay and WebRTC sessions are among those of active dialogs |
| Dialogs.OtherCallsKept | backend/src/sip/proxy.rs:694-726 | a run that is not about a call leaves no entry for it in any table |
| Dialogs.StepKeeps | backend/src/sip/proxy.rs:757-821 | a step about one call keeps every entry of another |
| Dialogs.EndedStaysForgotten | backend/src/sip/proxy.rs:757-821 | after a BYE or CANCEL for an active call no table holds it, until its next INVITE |
| Dialogs.DialogStores.HandleInvite | backend/src/sip/proxy.rs:308-434 | pending and active dialog and the media session of this call, nothing else |
| Dialogs.DialogStores.RelayResponse | backend/src/sip/handler.rs:362-452 | relayed to the pending dialog's caller unless it is final and the timer had fired; a provisional response changes no table, a final one ends the pending dialog, a failure also the media |
| Dialogs.DialogStores.HandleBye | backend/src/sip/proxy.rs:693-750 | the call leaves all tables; the BYE goes to the other party, or without a dialog to where the user of the request URI is registered |
| Dialogs.DialogStores.HandleCancel | backend/src/sip/proxy.rs:757-821 | the call leaves all tables; the CANCEL goes to the callee |
| Dialogs.DialogStores.DropCall | backend/src/sip/voicemail.rs:1028-1031 | the fired timer's cleanup removes the call from all tables |
| RelayPorts.FirstFree | backend/src/sip/media.rs:268-296 | the first attempt whose two ports are free; all earlier ones are not |
| RelayPorts.BindPairSafe | backend/src/sip/media.rs:268-296 | a pair that is returned is aligned, inside the range and free |
| RelayPorts.CounterStaysEven | backend/src/sip/media.rs:268-296 | the shared counter stays even over every search |
| RelayPorts.CoversExactly | backend/src/sip/media.rs:268-296 | with an even width every aligned pair is attempted exactly when the walk does not jump |
| RelayPorts.RepeatsExactly | backend/src/sip/media.rs:268-296 | and exactly then no pair is attempted twice |
| RelayPorts.OddWidthMisses | backend/src/sip/media.rs:268-296 | with an odd width some aligned pair of the range is never attempted, for every counter |
| RelayPorts.BindFailsOnlyWhenFull | backend/src/sip/media.rs:268-296 | the search fails only when no aligned pair is free, whatever is busy, exactly for an even width and a walk that does not jump |
| RelayPorts.WrapMisses | backend/src/sip/media.rs:268-296 | a range and a counter about to wrap for which the search fails with a free pair |
| RelaySessions.PortsConserved | backend/src/sip/media.rs:160-296 | over every run the held ports are exactly the ports of live sessions, each in one session and in the range, plus those of sessions replaced while live |
| RelaySessions.LeaksOnlyByReplacing | backend/src/sip/media.rs:160-193 | nothing is lost exactly when no live Call-ID is allocated again |
| RelaySessions.ReallocationLeaks | backend/src/sip/media.rs:160-193 | a call allocated twice: two ports stay bound that no session owns |
| RelaySessions.MediaRelay.BindPortPair | backend/src/sip/media.rs:268-296 | the loop finds what the search specifies, moves the counter accordingly, keeps it even and holds exactly the found pair |
| RelaySessions.MediaRelay.AllocateStream | backend/src/sip/media.rs:195-240 | one search's stream for a section, on ports the relay did not hold |
| RelaySessions.MediaRelay.AllocateSession | backend/src/sip/media.rs:160-193 | one stream per active section on fresh in-range ports; it fails exactly when there is no active section or one of the searches finds nothing, and then held ports and sessions are as they were |
| RelaySessions.BoundAll | backend/src/sip/media.rs:170-182 | the streams of the searches have pairs of their own, in the range and free, one per section in order |
| RelaySessions.MediaRelay.RemoveSession | backend/src/sip/media.rs:241-246 | the session goes and exactly its ports are released |
| VoicemailPorts.CandidateFor | backend/src/sip/voicemail_media.rs:155-182 | every port of the range is a candidate, for every counter start |
| VoicemailPorts.VoicemailMedia.BindSocket | backend/src/sip/voicemail_media.rs:155-182 | fails exactly when every port of the range is taken; otherwise returns the first free one in rotation |
| SdpLine.RewriteExact | backend/src/sip/media.rs:481-501 | for a port that differs from the line's own, the rewritten m= line reads as the old one with the port replaced exactly when the line is regular |
| SdpLine.IrregularLines | backend/src/sip/media.rs:481-501 | a leading space, a tab or two spaces: the port is read, and replaced somewhere else |
| SdpLine.StandardIsRegular | backend/src/sip/media.rs:478-485 | lines in the form of section 5.14 of RFC 4566 are regular |
| SdpLine.RewriteTwice | backend/src/sip/media.rs:481-501 | replacing the port twice is replacing it once, on every line |
| SdpLine.RewrittenLine | backend/src/sip/media.rs:452-455 | a regular m= line stays a regular m= line of the same kind and support, and its port reads as the new one |
| SdpRewrite.ParseSdpMediaSections | backend/src/sip/media.rs:335-376 | the loop yields the sections of the recursive reading, with indexes that count all m= lines |
| SdpRewrite.SectionsWithConnection | backend/src/sip/media.rs:432-450 | the sections that have an IPv4 connection line of their own |
| SdpRewrite.LastPortCounts | backend/src/sip/media.rs:384-384 | of several entries for a section the last one counts |
| SdpRewrite.RewriteSdpMedia | backend/src/sip/media.rs:383-430 | the loop writes, line by line, what the rewriting function specifies |
| SdpPreservation.RewrittenSections | backend/src/sip/media.rs:335-430 | re-reading a rewritten description gives the same kinds, indexes and active flags, with only the ports of active relayed sections replaced |
| SdpPreservation.LinesKept | backend/src/sip/media.rs:396-427 | every line but connection lines is kept in order, and a relayed m= line keeps all its tokens but the port number |
| SdpPreservation.RewriteIdempotent | backend/src/sip/media.rs:383-430 | rewriting twice is rewriting once, line for line |
| SdpPreservation.RewriteTextTwice | backend/src/sip/media.rs:383-430 | as texts, exactly when the description does not end in a blank line after other lines |
| SdpPreservation.BlankEndDropped | backend/src/sip/media.rs:396-429 | a description for which it is not |
| SdpAddresses.RelayedAddress | backend/src/sip/media.rs:404-422 | a relayed section with an IPv4 address in force ends with one in force, and every such address is the relay's |
| SdpAddresses.OtherAddressesKept | backend/src/sip/media.rs:385-393 | with an unsupported section present, every section outside the port list keeps the addresses in force |
| SdpAddresses.ActiveIsRelayed | backend/src/sip/media.rs:402-404 | the active sections in the port list are the ones rewritten |
| SdpAddresses.ConnSectionsMean | backend/src/sip/media.rs:432-450 | a section is listed exactly when one of its own connection lines is IPv4 |
| SdpOffer.ScanOffer | backend/src/sip/conference_sdp.rs:54-98 | the loop collects profile, payload types and maps of the first audio section |
| SdpOffer.ConferenceNegotiate | backend/src/sip/conference_sdp.rs:48-153 | the outcome is the first audio payload type and the first event one, or which of the three errors |
| SdpOffer.VoicemailNegotiate | backend/src/sip/voicemail_sdp.rs:47-160 | the outcome is the last PCMU, else the first PCMA, and the first event payload type, or which error |
| SdpAnswer.AcceptedExactly | backend/src/sip/voicemail_sdp.rs:98-160 | either endpoint accepts exactly the offers whose first audio section is RTP/AVP and lists a payload type that resolves to G.711 |
| SdpAnswer.AgreedFromOffer | backend/src/sip/conference_sdp.rs:109-152 | audio and event payload types are distinct members of the offered list with the use the offer maps them to; an event one is missing only if none was offered |
| SdpAnswer.VoicemailPrefersPcmu | backend/src/sip/voicemail_sdp.rs:126-153 | voicemail agrees on PCMU exactly when some offered payload type resolves to it |
| SdpAnswer.ConferenceTakesFirst | backend/src/sip/conference_sdp.rs:130-143 | no payload type before the chosen one resolves to audio |
| SdpAnswer.BuildAnswer | backend/src/sip/conference_sdp.rs:156-191 | the appended text is the specified lines, each ended by CRLF |
| SdpAnswer.AnswerFixedPoint | backend/src/sip/voicemail_sdp.rs:163-196 | negotiating the printed answer gives the same agreement exactly when the event payload type is not the audio one, for both endpoints |
| SdpAnswer.OfferAnswered | backend/src/sip/conference_sdp.rs:48-191 | for every accepted offer, negotiating the printed answer returns the same agreement |
| SipMessages.Parse | backend/src/sip/message.rs:18-76 | the loop over the lines computes the specified message or error |
| SipMessages.ParsedWellFormed | backend/src/sip/message.rs:38-66 | every parsed message has normalized header names without colon, each with at least one value, all on one line |
| SipMessages.ParsePrinted | backend/src/sip/message.rs:18-76 | a printed message is read with each header's values in order and trimmed, under its normalized name, and its body lines |
| SipMessages.FoldedHeaderRead | backend/src/sip/message.rs:46-53 | a header folded over any number of lines is read as one value, its pieces joined by single spaces, added to the earlier values of its name |
| SipMessages.NormalizedIsNormal | backend/src/sip/message.rs:132-145 | normalizing gives a trimmed lower-case name that is no compact form |
| Forwarding.NameReadBack | backend/src/sip/proxy.rs:999-1019 | a printed header name normalizes to the name it is stored under |
| Forwarding.BuildForwardedInvite | backend/src/sip/proxy.rs:110-152 | the appended text is the specified message, for any iteration order of the header map |
| Forwarding.KeptRead | backend/src/sip/proxy.rs:132-146 | whatever the order, each kept header is read back with its values and under its own name only |
| Forwarding.ForwardedReadBack | backend/src/sip/proxy.rs:110-152 | the receiver reads the proxy's Via before the original list, the proxy's Max-Forwards, Record-Route and Content-Length, every other header unchanged up to trimming, and the body exactly when its line breaks are CRLF and it does not end in one |
| Forwarding.ValuesUnchanged | backend/src/sip/message.rs:46-58 | a header comes through unchanged exactly when none of its values begins or ends in whitespace |
| Forwarding.BlankFoldShortened | backend/src/sip/message.rs:46-53 | a folded header that is read with a trailing space |
| ProxyVias.StripProxyVia | backend/src/sip/message.rs:249-263 | the loop drops the first Via line that names the domain and joins the rest |
| ProxyVias.StripResponse | backend/src/sip/message.rs:249-263 | a response whose first Via names the domain comes out as the same text without that header |
| ProxyVias.EchoRestored | backend/src/sip/handler.rs:392-392 | a response that echoes the forwarded Via list goes back with the caller's own list and nothing else changed |
| ProxyVias.NothingStripped | backend/src/sip/message.rs:249-263 | a text without such a Via comes out unchanged |
| ProxyVias.OtherHeaderLine | backend/src/sip/message.rs:254-255 | no header stored under another name is taken for a Via |
| Framing.ExtractContentLength | backend/src/sip/tcp_server.rs:158-169 | the first length line whose number can be read, else 0 |
| Framing.SipReader.ReadHeaders | backend/src/sip/tcp_server.rs:125-137 | the lines up to and including the first blank one, or the end of the stream |
| Framing.SipReader.ReadNextSipMessage | backend/src/sip/tcp_server.rs:120-155 | the nested loops return the next message and leave the rest of the stream |
| Framing.SipResponseBuilder.Build | backend/src/sip/response.rs:31-41 | status line, headers in order, the octet count of the body as the last header, and the body |
| Framing.MessageRead | backend/src/sip/tcp_server.rs:139-153 | a built message at the head of any stream is returned whole, and what follows it is left |
| Framing.StreamReadBack | backend/src/sip/tcp_server.rs:120-155 | any sequence of built messages with any number of CRLFs between them is read back as exactly those messages, then the end |
| Framing.OtherNameNoLength | backend/src/sip/tcp_server.rs:160-165 | only a header named Content-Length or l, in any case, is read as a length |
| Framed.ForwardedIsSendable | backend/src/sip/proxy.rs:110-152 | every forwarded INVITE is such a message |
| Framed.ResponseIsSendable | backend/src/sip/response.rs:31-41 | so is every built response without a length header of its own |
| Framed.ResponseReadBack | backend/src/sip/response.rs:31-41 | a built response is parsed with its status code, all its headers and its length, and its body exactly when its line breaks are CRLF and it does not end in one |
| RelayedLength.RewrittenMessage | backend/src/sip/media.rs:505-542 | rewriting a printed message drops its long lengths, puts the new one last and replaces the body |
| RelayedLength.RelayedReadBack | backend/src/sip/media.rs:505-542 | a stream reader returns the rewritten message whole exactly when no length is left that can be read, or the first one left is the new one |
| RelayedLength.LeftIsCompact | backend/src/sip/media.rs:522-528 | a length that is left is in compact form |
| RelayedLength.CompactStays | backend/src/sip/media.rs:522-528 | a compact length is left |
| G711.FindSegment | backend/src/sip/g711.rs:26-31 | the mask loop finds the position of the highest set bit |
| G711.LinearToUlaw | backend/src/sip/g711.rs:10-34 | the loop form computes the specified code |
| G711.LinearToAlaw | backend/src/sip/g711.rs:48-75 | the loop form computes the specified code |
| G711.UlawRoundTrip | backend/src/sip/g711.rs:37-45 | every octet survives decoding and encoding, 0x7F as 0xFF |
| G711.AlawRoundTrip | backend/src/sip/g711.rs:78-89 | every octet survives decoding and encoding |
| G711.UlawHalfStep | backend/src/sip/g711.rs:10-45 | encoding moves a sample by at most half a step of its segment, after the clip |
| G711.AlawHalfStep | backend/src/sip/g711.rs:48-89 | the same for A-law |
| G711.SilenceIsZero | backend/src/sip/g711.rs:10-75 | the silence octet of each codec is the code of zero |
| Rtp.PayloadFound | backend/src/sip/voicemail_media.rs:337-362 | the payload is found behind any CSRC list and extension |
| Rtp.HeaderFound | backend/src/sip/voicemail_media.rs:325-335 | payload type, sequence number, timestamp and source are read back |
| Rtp.OffsetsAgree | backend/src/sip/conference_media.rs:501-510 | the conference's offset is voicemail's on every packet voicemail accepts |
| Rtp.BuildIsGeneral | backend/src/sip/conference_media.rs:512-521 | what is sent is a packet without CSRCs and extension |
| ConferenceMixer.FrameEncodes | backend/src/sip/conference_media.rs:350-363 | the frame of a payload encodes to that payload, cut or padded with silence to 160 octets |
| ConferenceMixer.MixForReceiver | backend/src/sip/conference_media.rs:481-499 | the accumulator loops compute the wrapping sum of all others, clamped to 16 bits |
| ConferenceMixer.NoOverflow | backend/src/sip/conference_media.rs:481-499 | with up to 65536 talkers the wrapping sum is the exact sum |
| ConferenceMixer.OverflowBeyond | backend/src/sip/conference_media.rs:481-499 | with 65537 it need not be |
| ConferenceMixer.SentIsNearSum | backend/src/sip/conference_media.rs:412-437 | what a receiver is sent decodes to within half a codec step of the clamped sum |
| ConferenceMixer.OneTalkerVerbatim | backend/src/sip/conference_media.rs:350-437 | with one other talker on the same codec the receiver is sent that talker's payload, cut or padded to 160 octets |
| ConferenceRoom.Participant.ReceiveAudio | backend/src/sip/conference_media.rs:330-363 | the latest frame becomes that of the payload; an empty payload keeps it |
| ConferenceRoom.Participant.RecordDtmf | backend/src/sip/conference_media.rs:75-89 | the mute machine takes one step and reports a toggle |
| ConferenceRoom.Participant.HandleDtmfPacket | backend/src/sip/conference_media.rs:367-392 | only an end packet of a new event steps the machine |
| ConferenceRoom.TakeSnapshot | backend/src/sip/conference_media.rs:412-421 | each participant contributes its frame unless muted, silent or busy |
| ConferenceRoom.Emit | backend/src/sip/conference_media.rs:423-438 | one receiver's packet, and its sequence number and timestamp move on |
| ConferenceRoom.Tick | backend/src/sip/conference_media.rs:394-439 | every participant with a known endpoint is sent the mix of the others' frames of one snapshot |
| Dtmf.MuteCountsStarSix | backend/src/sip/conference_media.rs:75-89 | after every trace the mute flag is the initial one flipped once for each six directly after a star less than three seconds old |
| Dtmf.NotNewIgnored | backend/src/sip/conference_media.rs:367-392 | a packet that is not an end packet, or repeats the last end timestamp, changes nothing |
| Dtmf.DedupAgrees | backend/src/sip/conference_media.rs:367-392 | a trace and its de-duplicated form end in the same state |
| Dtmf.TsIsLastEnd | backend/src/sip/conference_media.rs:378-386 | the remembered timestamp is that of the last end packet |
| Wav.WriteWav | backend/src/storage/voicemail.rs:95-131 | the writer's loop produces the specified octets |
| Wav.ReadPcm16Wav | backend/src/storage/voicemail.rs:133-185 | the chunk walk terminates and stays in bounds on any octets, and computes the specified result |
| Wav.WavRoundTrip | backend/src/storage/voicemail.rs:133-185 | rate and samples are read back, also behind any list of padded other chunks and before anything |
| Wav.WrittenIsRead | backend/src/storage/voicemail.rs:95-185 | a written file is read back exactly when it has at most 10,000,000 samples |
| AuthGuard.SecurityGuard.IsBlocked | backend/src/security_guard.rs:81-84 | expired blocks go; the answer is whether one is left for the address |
| AuthGuard.SecurityGuard.PruneOld | backend/src/security_guard.rs:158-166 | the loop drops the old front of the queue |
| AuthGuard.SecurityGuard.RecordFailure | backend/src/security_guard.rs:86-133 | both queues and the blocks afterwards, and whether the failure triggered |
| AuthGuard.SecurityGuard.RecordSuccess | backend/src/security_guard.rs:135-140 | forgets the failures of this address and user only |
| AuthGuard.SecurityGuard.Unban | backend/src/security_guard.rs:142-145 | lifts the block of this address only |
| AuthGuard.TriggersExactly | backend/src/security_guard.rs:86-133 | a failure triggers exactly when the full history has enough failures in the window, for the address or for address and user since their last success |
| AuthGuard.BlockEndMeans | backend/src/security_guard.rs:115-130 | a block ends a fixed time after the last triggering failure, unless it was lifted since |
| AuthGuard.NoTriggerNoBlock | backend/src/security_guard.rs:115-130 | without a triggering failure there is no block |
| AuthGuard.BlockedByHistory | backend/src/security_guard.rs:81-133 | an address is blocked exactly when the last of its failures with enough failures behind it in the full history has no later unblock and is younger than the block time |
| AuthGuard.BlockedExactly | backend/src/security_guard.rs:81-84 | an address is blocked exactly when its last triggering failure has no later unblock and is younger than the block time |
| RateLimit.RateLimiter.Check | backend/src/api/rate_limit.rs:31-49 | the pruned list and the answer afterwards |
| RateLimit.PrunedAgrees | backend/src/api/rate_limit.rs:31-49 | pruning never loses a request that still counts |
| RateLimit.AtMostLimit | backend/src/api/rate_limit.rs:31-49 | in every window at most `limit` requests of a key are admitted |
| RateLimit.RefusedExactlyWhenFull | backend/src/api/rate_limit.rs:31-49 | a request is refused exactly when `limit` were admitted in the window that ends with it |

## Left out

- SipMessages.Parse: header names are lower-cased for ASCII letters only; names with other letters are not modelled.
- SipMessages.NormalizedIsNormal: for the same reason, lower case means ASCII lower case.
- Forwarding.NameReadBack: for the same reason, capitals are ASCII capitals.
- Framing.SipReader.ReadNextSipMessage: a length that ends inside a UTF-8 character is reported as such, while the server substitutes replacement characters.
- Forwarding.BuildForwardedInvite: the MD5 suffix of the Via branch is a parameter.
- Dialogs.DialogStores.HandleInvite: the handler is one step here; its interleaving with other handlers is in `CallRace` and `CallTables`.
- Busy-to-voicemail delivery (backend/src/sip/handler.rs:494-560): only its effect on the timer and the tables is in the race; it removes the pending dialog before looking it up.
- Voicemail PIN entry, menus and playback; MWI; the registrar, presence and message store: database work.
- `pending_invites`: only the busy path removes entries.
- WebRTC sessions are present or absent; what happens inside them is not modelled.
- MD5, HMAC, bcrypt, JWT and nonces.
- Sockets, RTP forwarding between learned addresses, task scheduling and abort latency; an aborted task is one that is not scheduled again.
- Forwarded CANCEL and MESSAGE texts: the same printing as the forwarded INVITE.
- The conference recorder, join and leave, and the conference's port search.
- Stale-session cleanup is in `Dialogs`, not in `RelaySessions`.
- ACL matching, username and extension validators, the transport registry, metrics, configuration, REST handlers, web hooks and mail.
