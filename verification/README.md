# lets-chat: a verified model of its hard parts

lets-chat is a chat server (Rust), its browser client (JavaScript) and a desktop shell (Rust). This
Dafny project models the parts of it whose correctness is hard to see from any one function:
protocols with messages in flight, a consent chain that ends in synthetic key presses, a durable
queue with racing handlers, backup and restore across crashes, and text, time and arithmetic code
that has to be exactly right. `dafny verify dfyconfig.toml` checks all of it.

Code that changes state step by step is modelled by classes and loops, each proved against a pure
specification function; the laws are proved about those functions, for all inputs and over all runs.

| file | what it models |
|---|---|
| `PeerModel.dfy`, `Negotiation.dfy` | one peer connection and its operations chain; two of them negotiating over two FIFO channels |
| `Mesh.dfy` | a voice room: every browser's peer records while users join and leave, and the offers and answers relayed between them, with FIFO channels to and from the server |
| `Links.dfy` | each pair of users in the room as one negotiation: what their two records come to, over all runs of the room |
| `Rejoins.dfy`, `RejoinRuns.dfy` | when something meant for an earlier session of a user can reach a later one, and three runs in which it does |
| `Injector.dfy`, `Control.dfy` | the native input injector against the state of the operating system; consent in the 1:1 call and in the huddle, the bridge in transit, the kill hotkey |
| `Outbox.dfy` | the service worker's offline queue, one await at a time |
| `Paths.dfy`, `Tree.dfy`, `Archive.dfy`, `Restore.dfy` | backup, verification, extraction, and the two-rename restore with failures and crashes |
| `Truncation.dfy`, `Html.dfy`, `Snippet.dfy`, `Gist.dfy`, `Grouping.dfy` | digest e-mails: cutting, escaping, mentions, links, subject lines, sections under one budget |
| `Embeddings.dfy` | cosine similarity over the reals; the byte form of stored vectors |
| `Coords.dfy` | clicks on a letterboxed picture to positions on the sharer's desktop |
| `Reactions.dfy` | the recently used list and the quick row of reactions |
| `Redirects.dfy` | the updater's guarded redirect loop |
| `Updates.dfy` | comparing versions and installing updates |
| `QuietHours.dfy` | do-not-disturb windows |
| `Wrappers.dfy`, `Ordering.dfy` | Option and Result; lexicographic order |

## Where the code and its documentation part ways

The model follows the code. Each of these is a lemma, with the exact condition beside it.

- Negotiation. server/assets/voice.js:813-832 has no counterpart to the `isSettingRemoteAnswerPending`
  flag of the perfect-negotiation example (W3C WebRTC 1.0, section 10.7). An offer that reaches the
  impolite side after it has queued, but not yet applied, the answer to its own offer is taken for a
  collision and dropped, so the two sides can come to rest without agreeing
  (`OfferAfterAnswerCanBeLost`). That is the only way: at rest they agree if and only if no offer was
  dropped so (`QuiescentAgreement`), and the impolite side's next offer repairs it (`NextOfferHeals`).
- Mesh. The header of server/assets/voice.js says that the newest joiner is always the offerer. The
  server announces a join to everybody who has the room open (server/src/routes/ws.rs:3558-3563), and
  a client counts itself as joined before its roster arrives. A client whose own join is still on its
  way, and who hears of another join first, makes that peer's record polite, and the roster that
  follows does not change it (`RacingJoinsAreEarly`). Neither then has a connection, and both wait
  for the other's offer, unless something of an earlier session reaches one of them (`LinksNegotiate`).
  Members hold opposite roles if and only if their joins did not race in this way (`LinkedRoles`), and
  a join races exactly when its user was told of a member, since that member last left, before any
  roster that names it (`EarlyExactly`, `PoliteAheadExactly`).
- Rejoining. Signals name users and carry no session, and the relay asks only whether both users are
  in the call (server/src/routes/ws.rs:3715-3758). What was meant for an earlier session of a user can
  reach the records of a later one: an answer still on its way up concludes a new offer
  (`StaleAnswerSpoils`); an offer heard between pressing join and the roster makes a record with a
  connection, polite on both sides (`StaleOfferSpoils`); and even with nothing on its way, a peer that
  has not yet heard of the departure offers from the record it still has (`OldRecordSpoils`). Each time
  the two rest without agreement, until one of them offers again (`OfferHeals`). As long as nothing of the
  kind reaches their two records, every pair of users negotiates as two peers do who never part: at rest
  they agree if and only if no offer was dropped (`LinksNegotiate`). That is so if both join only when
  nothing of an earlier session is left between them (`CalmRejoinsNegotiate`), and so if they join once
  (`JoiningOnceNegotiates`); and two users in the call who stay can come to hear something stray if and
  only if it is already on its way (`StrayHeardExactly`).
- Kill hotkey. desktop/src/main.rs:193-205 is documented to sever a session immediately. An arming
  command already on its way to the injector re-arms it (`KillCanBeOvertaken`), even if a disarming
  one follows it (`KillCanBeOvertakenForAWhile`); the page's own end event, sent in answer to the
  hotkey, disarms it again. Without a new grant it stays disarmed if and only if no arming command
  was on its way (`KillHotkeyEffect`, `ArmedAgainExactly`).
- Outbox. A message can be delivered twice in three ways: by two drains at once
  (`TwoDrainsDeliverTwice`); by two retries that read the queue together, even if their drains do not
  overlap (`StaleRetryDeliversTwice`); and, without any overlap, when the worker is stopped between
  the server's answer and the deletion of the record (`StopDeliversTwice`). Stopped before a rejection
  is written, the worker sends the message again without a retry (`StopForgetsRejection`). A message
  discarded after a drain has listed it is sent all the same (`DiscardedStillSent`). Whatever has
  happened so far, a message can be delivered once more if and only if it is in the store, or some
  handler has listed it as waiting, or some handler is about to write it (`DeliveredAgainExactly`).
- Backup. server/src/backup.rs:15-16 says that verification refuses on any drift. Archive members that
  the manifest does not list are not looked at (`VerifiesOnlyListedMembers`). A file whose name holds `..`
  next to a backslash is archived but can never be extracted (`BackslashNameCannotBeRestored`).
- Restore. If the machine stops between the two renames, the marker has moved away with the old data,
  so the next startup goes on as if nothing had been asked for (`HalfwayGoesUnnoticed`), and
  server/src/db/mod.rs:133 makes an empty data directory. Staging a second archive while a restore is
  waiting, and failing, leaves a partial tree that the next startup puts in place (`SpoiledStartup`).
- Snippets. server/src/digest.rs:56-92 calls its limit characters and its cut ASCII whitespace; it counts
  UTF-8 bytes and cuts at any Unicode whitespace. A word counts together with the whitespace character
  after it, so a word that fits can be left out when the space behind it does not.
- Reactions. A glyph of more than six UTF-16 code units, such as a family emoji, is sent but not
  remembered, so it does not lead the row the next time (`SentEmojiLeads`, `FamilyDoesNotLead`).
- Versions. The comment above `is_newer` speaks of three chunks; the code compares four. Anything
  attached to a shorter version makes it newer, so a release candidate outranks its release
  (`AttachedIsNewer`, `CandidateOutranksRelease`).

## Assumptions

- The relay and the event bus are FIFO for each receiver, and the server handles joins and leaves one
  at a time; a user is one connection. `Mesh.dfy` takes which events go to whom from server/src/routes/ws.rs.
- The browser's connection applies a description exactly when its signalling state allows it, with
  implicit rollback of the local offer on the polite side (section 3.2 of RFC 8829).
- SHA-256 and the manifest's JSON form are functions; all that is assumed of JSON is that what is written can be read back.
- Link finding, spoiler redaction, scan codes, DNS, HTTP, time zones and clock readings are parameters with a stated shape.
- File systems give distinct, non-empty names without slashes within a directory.

## Model

| member | source | states |
|---|---|---|
| `PeerModel.CandidatesConserved` | server/assets/voice.js:740-853 | whatever order offers, answers, candidates and chain operations come in, each candidate received is either handed to the connection or still pending, in order, none twice |
| `PeerModel.PeerRecord.OnOffer` | server/assets/voice.js:813-832 | a colliding offer is ignored by the impolite side and queued with rollback by the polite one |
| `PeerModel.PeerRecord.OnIce` | server/assets/voice.js:844-853 | a candidate goes to the connection if it has a remote description, otherwise to the pending list |
| `PeerModel.PeerRecord.FlushCandidates` | server/assets/voice.js:740-753 | the pending list is handed over in order and emptied |
| `PeerModel.PeerRecord.RunNext` | server/assets/voice.js:816-841 | running one queued operation: the state it leaves and the message it sends |
| `Negotiation.StepKeepsInv` | server/assets/voice.js:686-842 | the joint invariant of both peers and both channels survives every step of either side |
| `Negotiation.AnswersAreNeverStale` | server/assets/voice.js:813-842 | in every reachable state every answer in flight or queued answers the receiver's current outstanding offer |
| `Negotiation.NoRejectedDescription` | server/assets/voice.js:816-841 | no description is ever applied in a signalling state that refuses it |
| `Negotiation.QuiescentAgreement` | server/assets/call.js:417-488 | with empty channels and chains, both sides are stable on the same offer and answer if and only if no offer was dropped while an answer was being applied; otherwise it is the polite side that is left waiting |
| `Negotiation.PromptRunsAgree` | server/assets/voice.js:813-842 | if descriptions take effect as soon as they arrive on the impolite side, every state at rest is an agreement, whatever offers collided |
| `Negotiation.OfferAfterAnswerCanBeLost` | server/assets/voice.js:813-832 | a run that ends at rest without agreement |
| `Negotiation.EverySettlementEnds` | server/assets/voice.js:813-842 | without new negotiation needs the exchange ends after a number of steps bounded by the work outstanding, and it can only end at rest |
| `Negotiation.NextOfferHeals` | server/assets/voice.js:686-692 | after one more offer of the impolite side the two agree again |
| `Mesh.VoiceClient.Remove` | server/assets/voice.js:765-774 | exactly this record is gone |
| `Mesh.VoiceClient.Join` | server/assets/voice.js:856-891 | the client counts as joined at once |
| `Mesh.VoiceClient.Leave` | server/assets/voice.js:1006-1066 | every record is gone and the client has left |
| `Mesh.VoiceClient.OnRoster` | server/assets/voice.js:1540-1559 | everyone on the roster without a record is offered to |
| `Mesh.VoiceClient.OnJoined` | server/assets/voice.js:1561-1583 | a later joiner is awaited politely, unless it is this user or the client has not joined |
| `Mesh.VoiceClient.OnLeft` | server/assets/voice.js:1584-1593 | the departed member's record is removed |
| `Mesh.VoiceClient.OnOffer` | server/assets/voice.js:813-832 | an offer makes a polite record if there is none, and goes to the record |
| `Mesh.VoiceClient.OnAnswer` | server/assets/voice.js:834-842 | an answer goes to the record if there is one |
| `Mesh.StepKeepsInv` | server/assets/voice.js:1531-1632 | the invariant over all clients, both queues of each, and the member list survives every click, chain operation, service and delivery |
| `Mesh.LinkedRoles` | server/assets/voice.js:755-774 | of two members who hold records of each other the earlier one is polite, and the later one offers if and only if their joins did not race |
| `Mesh.DrainedMesh` | server/assets/voice.js:1540-1593 | once everything is delivered, a client has joined exactly if it is a member and holds records of exactly the other members |
| `Mesh.DrainedLinks` | server/assets/voice.js:755-774 | ... and every pair of members has one link, with opposite roles exactly when their joins did not race |
| `Mesh.PoliteAheadExactly` | server/assets/voice.js:1540-1628 | what a client has heard and will hear of a user leaves it with a polite record exactly if, after the last word that the user left, the user was announced before any roster that names it |
| `Mesh.EarlyExactly` | server/src/routes/ws.rs:3487-3573 | a step makes a pair race exactly when it lets the later user in and that user was told of the other ahead of its roster; the pair stays so until one of the two leaves or joins again |
| `Mesh.CleanRunsOrderTheMesh` | server/assets/voice.js:755-774 | over every run in which no joins race, any two linked members hold opposite roles, the later joiner offering |
| `Mesh.RacingJoinsAreEarly` | server/src/routes/ws.rs:3545-3563 | any two users of any room can race: a run of four steps in which they do |
| `Links.StepKeepsLinks` | server/assets/voice.js:686-842 | every click, chain operation, service and delivery in the room keeps every pair of users that nothing stray has reached in a state of the two-peer negotiation, or silent if their joins raced |
| `Links.LinksNegotiate` | server/assets/voice.js:813-842 | over every run of a room, two linked users whose records nothing meant for another session has reached: if their joins did not race, every answer on its way is to the offer that is out, and when nothing is on its way they agree if and only if no offer was dropped; if they raced, neither has a connection and nothing is on its way |
| `Rejoins.CalmRejoinsNegotiate` | server/assets/voice.js:856-1066 | the same for every run in which each of the two joins only when the other has no record of it, has heard all about it, and nothing between them is on its way |
| `Rejoins.JoiningOnceNegotiates` | server/assets/voice.js:856-891 | the same for every run in which the two join at most once, whatever others do |
| `Rejoins.StrayHeardExactly` | server/src/routes/ws.rs:3715-3758 | in every reachable room two linked users have a continuation, in which both stay, where one hears a signal of the other or a roster meant for another session, if and only if such a one is already on its way |
| `RejoinRuns.StaleAnswerSpoils` | server/src/routes/ws.rs:3715-3758 | for any two users of any room: a run that rests without agreement, nothing lost and no race, because an answer to an earlier session was relayed after the rejoin |
| `RejoinRuns.StaleOfferSpoils` | server/assets/voice.js:813-832 | a run that rests without agreement with both sides polite, one of them with a connection, because an offer to an earlier session was heard before the roster |
| `RejoinRuns.OldRecordSpoils` | server/assets/voice.js:1584-1593 | a run that rests without agreement because the peer had not yet heard of the departure and offered from its old record |
| `RejoinRuns.OfferHeals` | server/assets/voice.js:686-692 | in any room, if nothing is on its way between two users in the call whose records are stable, an offer by either, settled, brings them to agreement |
| `Injector.HeldIsWhatIsDown` | desktop/src/inject.rs:67-137 | after any commands the keys down in the operating system are the held keys, the buttons down are the held buttons that have a mouse button, and an inactive injector holds nothing |
| `Injector.SessionReleasesAll` | desktop/src/inject.rs:85-97 | after every arm, disarm or kill nothing is down, and only arming leaves the injector active |
| `Injector.ControlState.ReleaseAll` | desktop/src/inject.rs:160-170 | the held sets are empty afterwards, with only release events added for them |
| `Injector.ControlState.KillNow` | desktop/src/inject.rs:72-76 | killed: inactive and nothing held |
| `Injector.ControlState.RcSession` | desktop/src/inject.rs:85-97 | the injector after arming or disarming, with its effect on the operating system |
| `Injector.ControlState.RcInput` | desktop/src/inject.rs:103-137 | the effect of one frame: dropped when inactive or unreadable, injected and remembered otherwise |
| `Consent.CallControl.RevokeAsSharer` | server/assets/call.js:1118-1122 | a held grant is revoked, signalled and disarmed; without one nothing happens |
| `Consent.CallControl.OnMessage` | server/assets/call.js:862-880 | a frame is passed on only under a grant |
| `Consent.CallControl.Teardown` | server/assets/call.js:283-296 | ending the call leaves no grant and, if there was one, disarms |
| `Consent.HuddleControl.Grant` | server/assets/huddle_control.js:299-312 | the pending requester becomes the controller and the injector is armed |
| `Consent.HuddleControl.Finish` | server/assets/huddle_control.js:313-321 | an ended grant disarms; without a grant nothing happens |
| `Consent.HuddleControl.OnControlEvent` | server/assets/huddle_control.js:322-368 | the state after each of the six control signals, for either role |
| `Consent.HuddleControl.OnScreenEvent` | server/assets/huddle_control.js:375-392 | the end of one's own share ends the grant and the prompt |
| `Consent.HuddleControl.OnLeftEvent` | server/assets/huddle_control.js:393-416 | every role of somebody who left ends; leaving oneself ends them all |
| `Consent.HuddleControl.OnControlData` | server/assets/huddle_control.js:173-232 | a frame is passed on only when it comes from the user the grant was given to |
| `ControlRuns.StepKeepsInv` | desktop/src/inject.rs:297-327 | the grant on the page, the events on their way and the injector stay consistent through every step of either |
| `ControlRuns.ArmedOnlyUnderGrant` | server/assets/call.js:1087-1122 | over every interleaving the injector is active only under a grant or with the end of that grant already on its way; with nothing on its way, only under a grant |
| `ControlRuns.FramesOnlyUnderGrant` | server/assets/huddle_control.js:207-238 | a frame that reaches the operating system was sent under a grant that allowed its sender, between an arming and the first end after it |
| `ControlRuns.KillHotkeyEffect` | desktop/src/main.rs:193-205 | after the hotkey nothing is down and the injector is inactive; without a new grant it becomes active again in some continuation if and only if an arming is still on its way, and is active once all that is on its way has arrived if and only if no end follows that arming; once the page has answered and all has arrived it is inactive |
| `ControlRuns.ArmedAgainExactly` | desktop/src/inject.rs:297-327 | in any consistent state an inactive injector becomes active in some run without a grant click if and only if an arming is on its way |
| `ControlRuns.SeveredStaysQuiet` | desktop/src/main.rs:193-205 | once severed, it stays inactive with nothing down until the next grant |
| `ControlRuns.KillCanBeOvertaken` | desktop/src/inject.rs:321-327 | a run in which an arming overtaken by the hotkey re-arms |
| `ControlRuns.KillCanBeOvertakenForAWhile` | desktop/src/inject.rs:321-327 | granted and stopped before the hotkey, with both events on their way: inactive in the end, and active in between |
| `Outbox.ListingExact` | server/assets/sw.js:142-149 | a listing holds exactly the stored records, by increasing id |
| `Outbox.NothingLost` | server/assets/sw.js:193-290 | over any interleaving of posts, drains, retries, discards and worker restarts, every accepted message is queued, was delivered with success, or was discarded |
| `Outbox.TidyDelivery` | server/assets/sw.js:229-254 | if handlers that read and send do not overlap, and no handler is stopped between a reply and the write that follows it, every message is delivered at most once, never-rejected ones in queue order, and a rejected one is not sent again before a retry |
| `Outbox.TidyExposure` | server/assets/sw.js:229-254 | ... and a delivered message can be delivered again only for as long as its record waits to be deleted |
| `Outbox.DeliveredAgainExactly` | server/assets/sw.js:193-290 | in every reachable state, a queued message has a continuation that delivers it once more if and only if it is in the store, listed as waiting by a handler, or about to be written by one; under the same condition, and no other, it can be in the store again |
| `Outbox.OverlapDeliversTwice` | server/assets/sw.js:229-247 | in any state, two drains about to send the same record can both deliver it |
| `Outbox.TwoDrainsDeliverTwice` | server/assets/sw.js:229-254 | a run from the empty queue in which two drains do |
| `Outbox.StopDeliversTwice` | server/assets/sw.js:238-244 | a run without overlap in which the worker is stopped after the answer and the next drain delivers the message again |
| `Outbox.StopForgetsRejection` | server/assets/sw.js:238-252 | a run in which a rejection is not written and the message is about to be sent again without a retry |
| `Outbox.DiscardedStillSent` | server/assets/sw.js:285-287 | a run in which a message discarded during a drain is delivered |
| `Outbox.StaleRetryDeliversTwice` | server/assets/sw.js:276-284 | two retries of a rejected message that read together deliver it twice |
| `Outbox.DrainIsItsSteps` | server/assets/sw.js:229-254 | a drain as a loop comes to the same as its interleaved steps without interference |
| `Outbox.ServiceWorker.HandleMessagePost` | server/assets/sw.js:193-227 | a post is answered or queued under a new id, never both |
| `Outbox.ServiceWorker.DrainOutbox` | server/assets/sw.js:229-254 | what is sent, in which order, and what is left in the store, for any replies |
| `Outbox.ServiceWorker.Retry` | server/assets/sw.js:276-284 | the rejected record is pending again and a drain follows |
| `Outbox.ServiceWorker.Discard` | server/assets/sw.js:285-287 | exactly this record is gone |
| `Tree.WalkSound` | server/src/backup.rs:292-323 | every archived member is a regular file of the tree, found by looking its name up |
| `Tree.WalkComplete` | server/src/backup.rs:292-323 | every file that looking up finds is archived under its path |
| `Tree.WalkDistinct` | server/src/backup.rs:292-323 | no two members have the same name |
| `Tree.WalkedExact` | server/src/backup.rs:292-323 | the archive and the tree agree file by file |
| `Tree.NothingUnderFile` | server/src/backup.rs:292-323 | no path leads through a file |
| `Archive.ArchiveWriter.StreamFileIntoZip` | server/src/backup.rs:253-290 | the chunked copy writes every byte and hashes every byte, and the manifest entry has the whole size |
| `Archive.ArchiveWriter.WalkIntoZip` | server/src/backup.rs:292-323 | the loop over a directory adds exactly the walked members and their manifest entries |
| `Archive.ArchiveWriter.BuildZip` | server/src/backup.rs:207-247 | the archive is the snapshots, the trees that exist, and last the manifest of them all |
| `Archive.VerifyArchive` | server/src/backup.rs:344-404 | the verdict of the verification, entry by entry |
| `Archive.HashMember` | server/src/backup.rs:371-399 | reading in chunks counts and absorbs exactly the member's bytes |
| `Archive.CheckAllExact` | server/src/backup.rs:371-404 | the check passes if and only if every listed file is there with its size and its hash |
| `Archive.VerifiesOnlyListedMembers` | server/src/backup.rs:344-404 | members that no entry lists make no difference |
| `Archive.BuildSucceeds` | server/src/backup.rs:207-247 | the archive of any tree has distinct names, so building it never fails on one |
| `Archive.BackupVerifies` | server/src/backup.rs:333-404 | a backup passes verification on exactly the servers whose version has the same readable major and minor |
| `Archive.StagingDir.StageExtract` | server/src/backup.rs:410-453 | the staged files, or the first unsafe or blocked name |
| `Archive.BackupRoundTrip` | server/src/backup.rs:207-453 | extraction succeeds if and only if no archived name holds a dot-dot segment, and then every path reads as in the data directory, with no manifest.json |
| `Archive.BackslashFreeRoundTrip` | server/src/backup.rs:207-453 | for trees without backslashes in names the round trip always succeeds |
| `Archive.BackslashNameCannotBeRestored` | server/src/backup.rs:429-436 | a family of uploads that is archived and then refused |
| `Restore.DataRoot.ApplyPendingRestore` | server/src/backup.rs:76-110 | the disk after a startup, wherever it fails or stops |
| `Restore.NothingIsLost` | server/src/backup.rs:76-110 | after a startup that stops at any point every directory that held something is complete under some name, each under its own |
| `Restore.SwapExactly` | server/src/backup.rs:85-110 | the swap happens exactly when it is asked for and both renames go through; then the data is the staged tree and the old data is the replaced sibling |
| `Restore.SecondStartup` | server/src/backup.rs:76-92 | a second startup changes nothing if and only if the staged tree carried no marker |
| `Restore.HalfwayExactly` | server/src/backup.rs:107-110 | the data directory is missing afterwards exactly when only the second rename failed |
| `Restore.HalfwayGoesUnnoticed` | server/src/backup.rs:77-80 | the startup after that reports success and changes nothing |
| `Restore.ReadyExactly` | server/src/routes/admin.rs:2930-2948 | what the next startup takes stays a whole extraction under every step but an extraction that fails over a waiting marker |
| `Restore.CarefulRunsStayReady` | server/src/routes/admin.rs:2930-2948 | over every run without such a step, a startup only ever puts whole extractions in place |
| `Restore.SpoiledStartup` | server/src/backup.rs:410-420 | after such a step the next startup puts the partial tree in place |
| `Restore.BackupRestored` | server/src/backup.rs:76-453 | backup, staging, marker and restart together: every path reads as when the backup was made, the old data reads as before beside it, and a further startup changes nothing |
| `Truncation.WordTruncate` | server/src/digest.rs:60-92 | a text that fits is kept; otherwise a prefix that fits: the last run of whole chunks that fits without its trailing whitespace, or without a word in it the longest prefix of whole characters |
| `Truncation.HardCut` | server/src/digest.rs:82-88 | walking back from the limit ends, at the longest prefix of whole characters that fits |
| `Truncation.LastFit` | server/src/digest.rs:67-78 | the chunk loop stops at the last chunk end that fits |
| `Truncation.CutsBetweenWords` | server/src/digest.rs:79-91 | a cut between words is followed by whitespace and does not end in it |
| `Truncation.NoWholeWordLeftOut` | server/src/digest.rs:67-78 | a longer run of whole words would not have fitted together with the whitespace after it |
| `Html.HtmlEscape` | server/src/digest.rs:726-739 | the loop replaces the five special characters by their entities and nothing else |
| `Html.EscapedReads` | server/src/digest.rs:726-739 | escaped text reads back as itself, as text and inside an attribute, and holds no quotation mark |
| `Snippet.ApplyMentionBold` | server/src/digest.rs:138-160 | the loop's output is the text with exactly the pattern's matches in bold, and those matches are proper mentions |
| `Snippet.FoundMentions` | server/src/digest.rs:96-102 | the pattern's matches are an @ and up to 32 name characters each, in order and apart |
| `Snippet.BoldedReads` | server/src/digest.rs:138-160 | for any ordered, disjoint mentions the result shows the text unchanged with exactly those in bold |
| `Snippet.EscapingKeepsMentions` | server/src/digest.rs:135-137 | the pattern finds the same names in the escaped text as in the text itself |
| `Snippet.RenderHtmlSnippet` | server/src/digest.rs:94-133 | for any ordered, disjoint links the snippet is well-formed and shows the text unchanged; its links are the addresses found, each showing its own target, and its bold words the mentions between them |
| `Snippet.BuildSnippet` | server/src/digest.rs:36-54 | the HTML form read back is exactly the plain form, which is the trimmed text or its cut with an ellipsis |
| `Gist.CleanGist` | server/src/digest.rs:401-424 | the strip-until-stable loop ends and equals one pass over both ends, cut at 120 characters |
| `Grouping.BuildRoomSections` | server/src/digest.rs:483-514 | the first mentions up to the budget are grouped, the rest counted, the budget used up accordingly |
| `Grouping.BuildDmSections` | server/src/digest.rs:516-550 | the same for direct messages by peer |
| `Grouping.BuildSections` | server/src/digest.rs:292-303 | direct messages first; placed items are the smaller of the limit and all items, and placed plus overflow is all of them |
| `Grouping.PutGroups` | server/src/digest.rs:491-511 | one more row keeps the sections sorted, without repetition, each with exactly its rows in order under its first name |
| `Grouping.GroupedIsUnique` | server/src/digest.rs:483-550 | only one list of sections fits this description |
| `Embeddings.CosineSimilarity` | server/src/embeddings.rs:147-163 | the loop computes the quotient of the dot product and the norms, 0 for different lengths or a zero vector, and the result is between -1 and 1 |
| `Embeddings.CauchySchwarz` | server/src/embeddings.rs:151-158 | the dot product squared is at most the product of the squared norms |
| `Embeddings.CosineSymmetric` | server/src/embeddings.rs:147-163 | the order of the two vectors does not matter |
| `Embeddings.CosineOfItself` | server/src/embeddings.rs:147-163 | a vector is similar to itself by 1, the zero vector by 0 |
| `Embeddings.CosineOfScaled` | server/src/embeddings.rs:147-163 | positive scaling changes nothing |
| `Embeddings.VecToBytes` | server/src/embeddings.rs:166-172 | the words in order, each least significant byte first |
| `Embeddings.StoredVectorComesBack` | server/src/embeddings.rs:166-183 | packing and unpacking gives the vector back bit for bit, whatever up to three stray bytes follow |
| `Embeddings.StoredBytesComeBack` | server/src/embeddings.rs:166-183 | unpacking and packing gives the whole words of any stored row back |
| `Coords.PictureIsContained` | server/assets/rtc_common.js:97-99 | the picture fits into the element, centred, in its proportions, and fills it one way |
| `Coords.ClicksOnThePicture` | server/assets/rtc_common.js:91-104 | a click counts exactly when it is on the picture, and mapping it back gives the click |
| `Coords.WindowDoesNotMatter` | server/assets/rtc_common.js:91-104 | the same place of the picture gives the same coordinates in every window |
| `Coords.AbsIsFaithful` | desktop/src/inject.rs:386-388 | desktop positions are in range, in order, at most half a step off, and all reachable |
| `Coords.ClickToDesktop` | desktop/src/inject.rs:386-412 | from a click in any window to the position the desktop is told |
| `Reactions.StoredIsRecent` | server/assets/call_reactions.js:134-140 | after any picks from empty storage the stored list is the first 16 of the unbounded list |
| `Reactions.RecentByLastUse` | server/assets/call_reactions.js:134-140 | the unbounded list is in order of last use |
| `Reactions.RecentDistinct` | server/assets/call_reactions.js:43-46 | its glyphs are distinct and canonical |
| `Reactions.TrayOrder` | server/assets/call_reactions.js:54-61 | distinct canonical glyphs up to the cap, and all of them if there are fewer |
| `Reactions.RowHasEight` | server/assets/call_reactions.js:145-149 | whatever is stored and whatever the server answers the row has exactly eight different glyphs |
| `Reactions.SentEmojiLeads` | server/assets/call_reactions.js:134-149 | an emoji just sent leads the row if and only if it is recorded with at most six code units or led it before |
| `Reactions.FamilyDoesNotLead` | server/assets/call_reactions.js:134-149 | a family of three is taken for an emoji, and leaves the storage and the row as they were |
| `Reactions.ReactionTray.RecordRecent` | server/assets/call_reactions.js:134-140 | the stored list after one pick |
| `Reactions.ReactionTray.Send` | server/assets/call_reactions.js:306-323 | only what looks like an emoji and has somewhere to go is sent, and every such pick goes to the list |
| `Reactions.MostCommon` | server/assets/call_reactions.js:83-98 | the emoji announced for a batch is one of the most frequent, and of those the first to get there |
| `Redirects.Network.HostResolvesAllPublic` | desktop/src/net_guard.rs:102-122 | true exactly for a resolvable host with at least one address and no refused one |
| `Redirects.Network.Call` | desktop/src/net_guard.rs:127-149 | the guarded agent resolves and applies the policy again, and sends nothing to a refused address |
| `Redirects.Network.GuardedFetch` | desktop/src/net_guard.rs:180-242 | the loop's result and every request it makes |
| `Redirects.EveryRequestIsGuarded` | desktop/src/net_guard.rs:180-242 | at most four requests, all to web addresses, all but an exempted first with accepted addresses only, the credential on exactly those on the first address's origin, each where the last answer pointed |
| `Redirects.SuccessIsFinal` | desktop/src/net_guard.rs:226-240 | a success is the last answer and neither a redirect nor an error |
| `Redirects.GivesUpExactly` | desktop/src/net_guard.rs:190-242 | too many redirects is reported exactly when all requests were made and the last was sent on as well |
| `Updates.NewerIsAnOrder` | desktop/src/update.rs:243-265 | newer is irreflexive, transitive and total on versions without their leading v's |
| `Updates.HigherNumberIsNewer` | desktop/src/update.rs:248-265 | the first of the compared chunks that differs as a number decides |
| `Updates.AttachedIsNewer` | desktop/src/update.rs:248-265 | anything attached to a version of fewer than four chunks makes it newer |
| `Updates.CandidateOutranksRelease` | desktop/src/update.rs:248-265 | a release candidate is newer than its release |
| `Updates.Installation.Apply` | desktop/src/update.rs:290-352 | an update is installed exactly when it is newer, has a digest, and its body has the right length and hash; otherwise the installation is unchanged |
| `Updates.RunsOnlyUpgrade` | desktop/src/update.rs:290-294 | over any run of updates each installed version is newer than all before it, and none comes twice |
| `QuietHours.ContainsAroundTheClock` | server/src/dnd.rs:68-81 | a window holds a minute exactly when it comes before the end, counted around the clock from the start |
| `QuietHours.SwappedIsComplement` | server/src/dnd.rs:68-81 | swapping different ends gives exactly the other minutes |
| `QuietHours.DayCount` | server/src/dnd.rs:68-81 | over a day a window holds as many minutes as it is long |
| `QuietHours.WeekCount` | server/src/dnd.rs:87-101 | in a zone without clock changes any seven days on end have five weekday and two weekend windows of quiet |
| `QuietHours.PauseThenSchedule` | server/src/dnd.rs:104-152 | a manual pause wins while it lasts, and from then on the schedule decides |

## Left out

- Mesh.LinkedRoles: a rejoining user keeps its id, as in the code, and is told apart by its place in the order of joins. Signals have no such number, so offers and answers of an earlier session can reach new records; that changes no roles except by an early record, and what it does to the negotiation is in `Rejoins.dfy`.
- Links.LinksNegotiate: promises nothing for a pair once something meant for another session has reached one of its records, until that record is removed; ICE candidates, which go astray in the same way, and the rebuilding of one connection on request (server/assets/voice.js:776-811), which can start on both sides at once, are not part of the room.
- Rejoins.CalmRejoinsNegotiate: is a sufficient condition; a signal that goes astray can also be refused or ignored and do no harm.
- Mesh.VoiceClient.OnOffer: keeps the peer records as values in a map; `PeerModel.PeerRecord` has the record updated in place.
- Outbox.NothingLost: a delivery is an answer that the worker has seen; a message whose answer is lost on the way counts as not delivered and stays queued.
- ControlRuns.ArmedOnlyUnderGrant: says nothing about the other side of the network; a controller may still believe in a grant after its own request timed out.
- Injector.HeldIsWhatIsDown: the scan-code table is a parameter, and moving the cursor or turning the wheel leaves nothing held down.
- Archive.BuildSucceeds: names are strings; two different names that are not valid UTF-8 can be archived under one name by the lossy conversion in server/src/backup.rs, which then refuses the second.
- Archive.StagingDir.StageExtract: member names are taken as written; an archive made elsewhere may hold "." or empty segments, which joining paths would drop.
- Archive.BackupVerifies: SHA-256 is a function of the whole byte sequence, so nothing is said about collisions or about archives made to deceive.
- Archive.BackupRoundTrip: empty directories are not archived by the code and are not part of what is compared; symbolic links and other special files are skipped, as in the code.
- Restore.NothingIsLost: a rename is one step; what a disk keeps of an unfinished rename after losing power is up to the file system.
- Embeddings.CosineSimilarity: is about real numbers; rounding of 32-bit floats, infinities and NaN are not modelled.
- Coords.ClicksOnThePicture: is about real numbers as well; browsers compute in 64-bit floats.
- Reactions.StoredIsRecent: storage that is switched off or holds values other than strings is not modelled, and server/assets/reactions.js, which writes the same list without canonicalising, is taken into account only where a lemma speaks of any stored list.
- QuietHours.WeekCount: times are whole minutes, and reading "HH:MM" and time-zone names is left to a parameter.
- Grouping.BuildSections: an item stands for the rendered digest entry; its deep link and time stamp are not modelled.
- Redirects.EveryRequestIsGuarded: address classification is the policy parameter, and a time-out counts as a transport error.
- Updates.Installation.Apply: the temporary file, its permissions and the replacement of the running program are two yes-or-no outcomes.
- The SFU path (server/assets/huddle_sfu.js), the LiveKit SDK and server/assets/stage_media.js: the behaviour lies in a library.
- Media devices, tiles, focus, toasts and the rest of the user interface.
- Server routes, database queries and the hub beyond who is told what about joins and leaves.
- `hash_embed`, `build_subject`, gist prompts, config files, notifications, command and emoji tables: they would only add easy members.
