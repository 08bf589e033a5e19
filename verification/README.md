# Termethis core, modelled and proved

Termethis is an SSH, SFTP, VNC and RDP client for Android. This project models the parts of it where
several actors share state, where a fast form must agree with a simple one, or where a codec must be
inverted, and proves what they are for. `dafny verify dfyconfig.toml` checks everything.

| files | what they model |
|---|---|
| `Basics`, `Paths`, `RemoteFs`, `LocalTree` | shared types; paths and the tree order on them, the staging names, the remote file system as a map from paths to nodes with the effect of every SFTP request, and the local tree with the bookkeeping of a walk |
| `StagedUploads`, `UploadTargets`, `UploadRollback`, `UploadSuccess` | uploads as interleaved processes over one server; every request may succeed, be refused, or take effect although the reply is an error, and every transfer may be cancelled while it stages; which targets go together, when a failure restores what was there, and when an upload succeeds |
| `SftpServer`, `DirectoryUpload`, `UploadAgreement` | the three loops over explicit stacks as they run: removing a remote tree, adding up a local tree, sending it; and that the sent tree is what the interleaved upload ends with |
| `OutputBuffer` | the bounded SSH output buffer: one append task, any number of reads and closes, two FIFO queues under one lock, two `Notify` objects |
| `HostKeys`, `HostKeyRuns`, `HostKeySuccess` | host-key confirmation: connections with their handlers, the registries of pending host keys, pending authentications and sessions, timeouts, rekeys, chains of jump hosts; what runs do in terms of the keys shown and the answers given, and what a connection needs to succeed |
| `UploadRegion`, `RdpRenderer` | the RDP renderer: the dirty-rectangle arithmetic, a texture as rows of pixels, and the decoder and render threads around a surface slot, a pending slot and a two-place queue |
| `VncFrame`, `VncPolling` | the VNC framebuffer as a flat byte array, and the event loop against a polling reader |
| `ModeTracker`, `WriteScheduler` | the private-mode recogniser and the budgeted write scheduler of the terminal views |
| `ShellBuffer` | the chunk buffer of the Shizuku shell |
| `Utf8`, `Socks5`, `SseCodec`, `SseCursor` | the SOCKS5 reader and the bridge's wire codec |
| `DocumentCopy`, `DocumentImport` | importing a picked document tree |

Code that changes things in place is modelled by classes, arrays and loops (`Server`, `Buffer`,
`HostKeyHandler`, `VulkanSurface`, `VncSession`, `TerminalModeTracker`, `TerminalView`, `ShellService`,
`Socket`, `Serializer`, `Deserializer`, `Importer`), each method proved equal to a function of the old
state. Concurrent code is a state machine whose steps are the stretches between two points where another
task can run. Where a class has both forms, the functions that specify its methods are the steps (`Buffer`,
`HostKeyHandler`, `VncSession`, `VulkanSurface`, `TerminalView`, `ShellService`). The directory upload is
modelled twice, as the loop it is and as interleaved requests that may fail; `UploadAgreement.SameOutcome`
joins the two.

## Assumptions

- A server's listing omits `.` and `..`, and an entry's path is its directory, `/`, and its name. Renaming
  onto an existing name is refused (section 6.5 of draft-ietf-secsh-filexfer-02).
- Uploads that run side by side have equal or non-nested targets, and no target is named like, or lies
  inside, another transfer's staging name; `UploadTargets.CompatibleExactly` shows that exactly these names
  are safe. Transfer ids are never reused.
- Names within one local directory are distinct and contain no `/`.
- A `notified()` future receives every `notify_waiters` issued after it was created.
- A handshake ends well only after a key was shown and accepted (section 8 of RFC 4253).
- A refused host key ends the connection, so nothing is authenticated or opened on it, or carried by it,
  afterwards.
- One thread decodes frames; frames have full-length, non-empty buffers, and frames of equal size differ
  only inside the later one's inclusive dirty rectangle (`ShortBufferSpoilsIff` says what happens
  otherwise). For `NoForgottenFrame` and `RestShowsNewest`, swapchain images are acquired and the thread is
  not stopped.
- Document trees are finite.

## Where the code and its documentation differ

- ARCHITECTURE.md (line 259) says that a failed or cancelled upload restores the displaced item. In the
  code the restoring rename's own failure is ignored, and a rename that took effect behind an error is
  taken for one that did not. `UploadRollback.FailureRestoresIff` gives the exact condition,
  `LostRenameDisplaces` and `FailureMayNotRestore` are runs that fail it;
  `StagedUploads.OriginalNeverLost` is what holds always.
- `append_output` checks the closed flag before it subscribes to the wakeup. A close that falls entirely
  between the two leaves the append task asleep, and for ever once no reader is left;
  `OutputBuffer.StrandedOnlyBySlip`, `SlipStrands`, `StrandedForever` and `StrandedIsReachable` say when, how
  long, and that it can happen.
- `vnc_read_frame` loads the size after it has cloned the frame, so the two need not fit each other across
  a resize. `VncPolling.SizeFitsIff` says exactly when they do, `SizeMayMissTheFrame` is a run where they do not.
- A directory whose listing the document provider refuses is imported as an empty one; only a document
  that cannot be read makes the import fail.

## Model

| member | source | states |
|---|---|---|
| StagedUploads.TargetNeverPartial | rust/src/api/core.rs:2465-2510 | for any number of uploads of files and directories in any interleaving, with every request succeeding, refused, or carried out behind an error, each target holds nothing, what it held at the start, or one transfer's complete content |
| StagedUploads.OriginalNeverLost | rust/src/api/core.rs:2477-2508 | a transfer alone on its target keeps the original whole at the target or at the backup name until its own complete content is at the target; reported success means the complete content is there |
| UploadTargets.CompatibleExactly | rust/src/api/core.rs:2471-2508 | whatever is uploaded to a set of targets, to whatever server and in whatever interleaving, no target is ever partial if and only if the targets are pairwise equal or unrelated and none is, or lies inside, a staging name of another; so the assumption on names is exactly the one needed |
| UploadTargets.OriginalOverwritten | rust/src/api/core.rs:2471-2508 | for every pair of targets of which one is, or holds, the other's `.part` name, a run in which the original there is neither at its place nor at the backup name, and the new content is not there either |
| StagedUploads.OnlyTheTargetChanges | rust/src/api/core.rs:2547-2635 | after reported success of a lone transfer whose backup is cleaned away, the target is the new content and every path outside it is as before |
| UploadAgreement.SameOutcome | rust/src/api/core.rs:2547-2635 | a lone interleaved upload that reports success and has cleaned up ends in exactly the file system that the sequential directory upload installs |
| UploadSuccess.HonestUploadSucceeds | rust/src/api/core.rs:2465-2510 | for every source without a symbolic link, free staging names and whatever lies at the target, a run of honest answers, at any server and beside any other transfers, that reports success with the complete content at the target, the displaced item cleaned away and nothing else changed |
| UploadSuccess.HonestNeverFails | rust/src/api/core.rs:2465-2635 | a transfer without symbolic links that is not cancelled and whose requests succeed, a missing target being reported missing, is never rolling back and never reports failure, whatever happens to others |
| UploadSuccess.LinksNeverSucceed | rust/src/api/core.rs:2577-2584 | a directory with a symbolic link anywhere in it never gets past staging: it is discarded and fails in every run |
| UploadSuccess.WayOut | rust/src/api/core.rs:2500-2508 | every action after staging brings a transfer nearer its end; it reports a failure only after the cleanup of its staging name and, with an item displaced, an attempt to put that back; any request may be refused, and it can be cancelled exactly while it stages |
| UploadSuccess.FailureCleansUp | rust/src/api/core.rs:2500-2508 | a transfer that has given up, whatever it has staged, can clean its staging name and put a displaced item back whole, and changes nothing else |
| StagedUploads.UninvolvedRuns | rust/src/api/core.rs:2547-2635 | no run of uploads changes a path outside every target and every staging name |
| StagedUploads.OthersUntouched | rust/src/api/core.rs:2471-2472 | no request of one transfer reaches another transfer's staging names or a different target |
| StagedUploads.Separation | rust/src/api/core.rs:2471-2472 | the target, `.part` and `.backup` names of all transfers are pairwise unrelated in the tree |
| Paths.StagingNamesAreInjective | rust/src/api/core.rs:2471-2472 | target, transfer id and role are recovered from a staging name |
| UploadRollback.FailureRestoresIff | rust/src/api/core.rs:2500-2508 | a lone transfer that reports failure has left at its place what was there before if and only if no displacing rename took effect behind an error, no installing rename did unless the content was the same, and the restoring rename was not refused; the design document promises it without that condition |
| UploadRollback.RollbackRuns | rust/src/api/core.rs:2477-2508 | the original stays accounted for while answers are honoured, and the first answer that is not displaces it for good; uploading what already stands there is the one case in which an installing rename behind an error does no harm |
| UploadRollback.LostRenameDisplaces | rust/src/api/core.rs:2477-2508 | for every item and every name it may have, a run of one upload that reports failure and leaves nothing at the target |
| UploadRollback.FailureMayNotRestore | rust/src/api/core.rs:2477-2508 | such a run on a one-byte file at `/a`, in which the condition of FailureRestoresIff is false |
| SftpServer.Server.DeleteTree | rust/src/api/core.rs:2670-2696 | the stack loop removes exactly the subtree at the root and nothing else; any failure leaves at most a part of it removed; on a server that refuses only the impossible it succeeds, so directories are removed only when empty; every directory is listed, none twice |
| SftpServer.DirIsEmpty | rust/src/api/core.rs:2672-2678 | when a directory is popped the second time, everything that was below it is gone |
| SftpServer.FileIsLeaf | rust/src/api/core.rs:2684-2693 | a file found in a listing is still there, is removable, and has nothing below it |
| SftpServer.Expand | rust/src/api/core.rs:2679-2688 | replacing a popped directory by itself and its listed children loses no item and counts none twice |
| SftpServer.NothingLeft | rust/src/api/core.rs:2670-2696 | when the stack is empty the subtree is gone and every directory of it has been listed |
| SftpServer.Server.ReadDir | rust/src/api/core.rs:2680-2684 | a listing names the direct children, each once |
| DirectoryUpload.LocalTreeSize | rust/src/api/core.rs:2512-2545 | the size loop fails exactly when a symbolic link is anywhere in the tree, and otherwise returns the saturating sum of all regular files |
| DirectoryUpload.CopyStream | rust/src/api/core.rs:2637-2668 | the chunk loop leaves the whole content in the remote file and adds exactly its length to the wrapping byte counter |
| DirectoryUpload.SendEntry | rust/src/api/core.rs:2568-2607 | one local entry extends the remote copy by exactly that entry, or stops at a symbolic link; sockets and devices are skipped |
| DirectoryUpload.SendTree | rust/src/api/core.rs:2560-2608 | the walk fails exactly on a symbolic link; otherwise the staging name holds exactly the tree's directories and regular files, and the counter their bytes |
| DirectoryUpload.RunSftpUploadTree | rust/src/api/core.rs:2547-2635 | with every request answered, the upload fails exactly on a symbolic link and then leaves the server as it was; otherwise the target is the local tree's image, nothing else changes, and all bytes are counted |
| DirectoryUpload.StartUploadDirectory | rust/src/api/core.rs:1369-1385 | the size taken first refuses exactly the trees the upload refuses, and a completed upload's counter equals it when the sum is below 2^64 |
| LocalTree.NextDirectoryCovers | rust/src/api/core.rs:2561-2567 | opening the next directory keeps the walk's account: sent so far, stacked and listed together are the whole tree |
| LocalTree.QueuedCovers | rust/src/api/core.rs:2585-2589 | creating and stacking a directory keeps the account |
| LocalTree.FinishedCovers | rust/src/api/core.rs:2561-2608 | with nothing stacked and nothing listed, everything has been sent |
| RemoteFs.RenameMoves | rust/src/api/core.rs:2491-2498 | a rename moves the whole subtree and leaves nothing behind (section 6.5 of draft-ietf-secsh-filexfer-02 for its refusal when the new name exists) |
| OutputBuffer.Buffer.Extend | rust/src/api/core.rs:2361-2387 | one locked section of the append loop queues exactly as much of the rest as fits, in its own queue, and reports how far it got: to the end of the message or to a full buffer |
| OutputBuffer.Buffer.Drain | rust/src/api/core.rs:459-465 | a drain hands out the front of standard output, then of standard error up to the same limit, and keeps the rest |
| OutputBuffer.DrainConserves | rust/src/api/core.rs:2389-2392 | what a drain hands out followed by what it keeps is what was queued, per stream; it hands out as much as the limit allows, and standard error only when no standard output is left |
| OutputBuffer.OutputConserved | rust/src/api/core.rs:436-498 | in every interleaving of the append task, reads, input and closes: per stream, the results of the reads in the order they were served, then the queue, then what is still in the producer's hands, are exactly the bytes the channel handed over, in order; the queues never exceed 2 MiB together |
| OutputBuffer.ServedOnce | rust/src/api/core.rs:443-497 | a read is served at most once, one that is not served returns nothing, and what a read has got does not change |
| OutputBuffer.ReadReturnsIff | rust/src/api/core.rs:449-482 | a read that looks at the queues returns if and only if the session is closed, or there is data and input was sent since data was last found, or a batch is ready, or its own deadline has passed; it then takes the front of both queues up to its limit, and otherwise leaves them |
| OutputBuffer.LimitIsAsked | rust/src/api/core.rs:442 | every read is held to what it asked for, but at least one byte and at most 256 KiB |
| OutputBuffer.ReadsEnd | rust/src/api/core.rs:444-497 | from every reachable state an unfinished read returns by at most eight actions of its own, once its deadlines have passed, whatever the others do not do |
| OutputBuffer.MessageFits | rust/src/api/core.rs:2361-2387 | a message that fits is queued whole by five actions of the producer, and the readers are woken once |
| OutputBuffer.ClosedEnds | rust/src/api/core.rs:2361-2366 | a message in hand is given up at the check of the flag exactly if the session is closed |
| OutputBuffer.CloseStored | rust/src/api/core.rs:540-543 | the session counts as closed exactly when some close has stored the flag |
| OutputBuffer.EverythingPasses | rust/src/api/core.rs:436-498 | whatever messages the channel sends, each no longer than a read may be, there is a run after which all of it, per stream and in order, is in the results of the reads |
| OutputBuffer.NoLostWakeup | rust/src/api/core.rs:443-497 | a producer asleep and not yet woken faces a full buffer, or a read is about to wake it; a read asleep and not yet woken faces empty queues and an open session, or a producer or closer is about to wake it |
| OutputBuffer.StrandedOnlyBySlip | rust/src/api/core.rs:2361-2387 | after a finished close the producer sleeps unwoken on a full buffer only if the close's wakeup fell between the producer's check of the flag and its subscription |
| OutputBuffer.SlipStrands | rust/src/api/core.rs:2361-2387 | such a slip with a full buffer does strand the producer in its next two actions |
| OutputBuffer.StrandedForever | rust/src/api/core.rs:2361-2387 | a producer stranded with no read or close under way stays asleep in every continuation in which none begins; after `ssh_close` has removed the session none can |
| OutputBuffer.StrandedIsReachable | rust/src/api/core.rs:533-542 | a run from the start in which nobody ever reads, `ssh_close` strands the producer this way, and no read or close is left under way |
| HostKeys.IdentityIsInjective | rust/src/api/core.rs:2783-2785 | identities tell host keys apart, fingerprints being free of bars |
| HostKeys.HostKeyHandler.CheckServerKey | rust/src/api/core.rs:1647-1670 | the handler's verdict and what it remembers, for every key shown |
| HostKeys.FirstKeyIsPinned | rust/src/api/core.rs:1657-1669 | a handler that may ask accepts, of any series of keys, exactly those with the first key's identity |
| HostKeys.OnlyTrustedKeys | rust/src/api/core.rs:1657-1669 | a handler that may not ask accepts exactly the trusted keys, so none when the list is empty |
| HostKeyRuns.SessionsAreTrusted | rust/src/api/core.rs:254-335 | in every reachable state a session exists only if, on its connection and every jump host under it, some key was accepted and every accepted key is trusted, or repeats the first key where the caller was asked and said yes to that key; and only after the server accepted the credentials of each and opened the channel |
| HostKeyRuns.KeysDecide | rust/src/api/core.rs:1647-1670 | of the keys shown on a connection, at the handshake and at rekeys, it accepts exactly those before the first that is not acceptable, and that one ends it |
| HostKeyRuns.ApprovalIsTheCallers | rust/src/api/core.rs:309-335 | where the caller is asked, credentials are offered only after an event in which the caller said yes to the id that connection waited under |
| HostKeyRuns.AnswerDecides | rust/src/api/core.rs:292-335 | for an id still pending: yes offers credentials, no or the timeout closes the connection without any, and nothing else changes |
| HostKeyRuns.LateAnswer | rust/src/api/core.rs:316-323 | an answer to an id that is not pending changes nothing, and neither does its timeout |
| HostKeyRuns.HandshakeDecides | rust/src/api/core.rs:268-306 | a failed handshake or a refused key closes the connection; otherwise the first key shown is put to the caller under a new id, or authentication starts, according to whether any key was trusted beforehand |
| HostKeyRuns.ConnectionsAreRequested | rust/src/api/core.rs:1863-1998 | the connections are exactly the requested ones, each of the kind, over the hop and with the trusted keys of its request |
| HostKeyRuns.GrantedFirst | rust/src/api/core.rs:337-434 | a connection carries another, or a session, only after an event in which the server accepted its credentials while it was alive |
| HostKeyRuns.SessionsEnd | rust/src/api/core.rs:533-551 | a session ends when it is closed and only then |
| HostKeySuccess.JumpChainOpens | rust/src/api/core.rs:1863-1998 | when every server answers well, a connection through any number of jump hosts opens a session if and only if each of them and the target shows a key trusted for it |
| HostKeySuccess.DirectOpens | rust/src/api/core.rs:254-434 | when the server answers well, after any number of questions, a direct connection opens a session if and only if the key shown is trusted, or nothing was and the caller approves it |
| HostKeyRuns.AuthenticationWaits | rust/src/api/core.rs:337-434 | no credential is offered on a connection before that holds of its keys and of every jump host under it |
| HostKeyRuns.ConsumedOnce | rust/src/api/core.rs:292-335 | of approval, rejection and timeout only the first finds a pending host key; no later answer to the same id does |
| HostKeys.StepKeeps | rust/src/api/core.rs:1863-1998 | every event of direct, jump-host and file-transfer connections keeps the registries, phases and accepted keys consistent |
| VncFrame.VncSession.SetResolution | rust/src/api/core.rs:1453-1466 | a size within the cap is stored and the buffer resized, leading bytes kept and the rest zero; a larger one changes nothing |
| VncFrame.VncSession.ApplyRect | rust/src/api/core.rs:1570-1595 | accepted exactly when the corner is on the screen and the image is all there; the row loop then paints exactly the visible part, and otherwise nothing changes; no index leaves the buffer |
| VncFrame.VncSession.CopyRect | rust/src/api/core.rs:1597-1630 | accepted exactly when some offset inside the source rectangle has source and destination on the screen; the two row loops then give each such destination the old source pixel and change no other, and otherwise nothing changes; no index leaves either buffer |
| VncFrame.PaintedPixel | rust/src/api/core.rs:1570-1595 | after a raw rectangle each visible pixel is its own pixel of the image, every other pixel is as before (section 7.7.1 of RFC 6143) |
| VncFrame.CopiedPixel | rust/src/api/core.rs:1597-1630 | after a copy a pixel takes the old source pixel exactly when its offset lies in the source rectangle with source and destination on the screen, overlapping or not; every other pixel is as before (section 7.7.2 of RFC 6143) |
| VncFrame.CopyableIff | rust/src/api/core.rs:1597-1615 | a copy is accepted exactly when there is a pixel to copy |
| VncFrame.BlitPixel | rust/src/api/core.rs:1588-1593 | rows written one below the other change exactly the pixels of their rectangle |
| VncPolling.ChangeMeans | rust/src/api/core.rs:1449-1478 | what each server change makes of the screen: a resize within the cap, the image drawn at its rectangle, the pixels moved, or nothing when it is refused |
| VncPolling.ReplayIsValid | rust/src/api/core.rs:1453-1478 | every series of resizes, raw and copy rectangles keeps the buffer at width * height * 4 bytes within the cap |
| VncPolling.PollerMissesNothing | rust/src/api/core.rs:1498-1535 | for a reader that feeds back the last number: numbers never decrease, a frame returned is the work of whole changes with every update up to its number among them, and none is returned only when there is no new update |
| VncPolling.SequenceCountsUpdates | rust/src/api/core.rs:1467-1478 | between events the screen is what all server changes sent so far make of it, in order, the number counts exactly those that were drawn, and the buffer has exactly its rows |
| VncPolling.ServedInOrder | rust/src/api/core.rs:1449-1478 | the loop drops no server change and makes up none |
| VncPolling.LoopGoesOn | rust/src/api/core.rs:1449-1478 | the loop is ready for the next server event after at most two more actions; only a size beyond the cap ends it |
| VncPolling.PollReplies | rust/src/api/core.rs:1498-1535 | one poll, whatever the loop does between its four loads: the number at the first, the frame at the second exactly if that number is news, the width at the third, the height at the fourth |
| VncPolling.SizeFitsIff | rust/src/api/core.rs:1524-1532 | for every history and every interleaving of the three loads with the event loop: the reply carries the frame as cloned, the width of one moment and the height of a later one, and they fit the frame if and only if their product is that of the size the frame was cloned under |
| VncPolling.SizeFitsWithoutResize | rust/src/api/core.rs:1524-1532 | so the size fits whenever no resize is under way at the clone and none is accepted before the height is loaded |
| VncPolling.SizeMayMissTheFrame | rust/src/api/core.rs:1524-1532 | the witness: a run in which a resize between the loads makes the width and height returned miss the frame returned |
| UploadRegion.RegionFits | rust/src/rdp_upload.rs:12-47 | every region is a non-empty part of the frame that covers the visible part of the inclusive dirty rectangle, or all of it after texture creation |
| UploadRegion.RegionExact | rust/src/rdp_upload.rs:23-46 | a region is exactly the visible part of the inclusive dirty rectangle, no more; a single row or column when that is empty or out of sight; all of the frame on a full upload |
| UploadRegion.PictureIsPixels | rust/src/android_vulkan.rs:536-566 | pixel by pixel, the texture of a frame is its buffer, four bytes each, row after row |
| UploadRegion.OffsetsExactIff | rust/src/rdp_upload.rs:36-45 | the 32-bit offset is the rectangle's true offset for every dirty rectangle if and only if width * height * 4 <= 2^32 |
| UploadRegion.DesktopSizesAreSmall | rust/src/api/rdp.rs:88-89 | sizes clamped to 8192 meet that bound |
| UploadRegion.RegionSource | rust/src/android_vulkan.rs:536-566 | every pixel of a region is read from its own place in the frame buffer, inside the buffer |
| UploadRegion.PartialUploadSuffices | rust/src/android_vulkan.rs:524-566 | sending only the dirty rectangle turns the previous frame's texture into the next frame's, pixel for pixel |
| UploadRegion.FullUploadSuffices | rust/src/android_vulkan.rs:521-532 | a new texture is initialised to the whole frame |
| RdpRenderer.VulkanSurface.EnsureFrameTexture | rust/src/android_vulkan.rs:632-676 | a texture of the frame's size is kept, any other replaced by a blank one |
| RdpRenderer.VulkanSurface.Upload | rust/src/android_vulkan.rs:510-569 | stale or empty frames change nothing; a short buffer fails after the texture is made; otherwise the region is written and the number recorded; the next frame in sequence always succeeds and leaves texture and numbers faithful |
| RdpRenderer.VulkanSurface.Present | rust/src/android_vulkan.rs:571-629 | what is shown and recorded for each way acquiring an image can end; a faithful surface stays faithful |
| RdpRenderer.TextureIsFrame | rust/src/android_vulkan.rs:139-200 | in every interleaving of the decoder, the render thread, attaches, detaches and stops, the texture is the whole frame numbered `uploaded`, the display shows the one numbered `presented`, and a stale pending frame never overwrites a newer one |
| RdpRenderer.NextFrameUploads | rust/src/android_vulkan.rs:510-569 | uploading the next frame in sequence keeps texture and numbers faithful, whether partial or full |
| RdpRenderer.TrimmedPicture | rust/src/android_vulkan.rs:178-187 | the bytes kept with a pending frame are as many as its picture needs, and enough for it |
| RdpRenderer.NoForgottenFrame | rust/src/android_vulkan.rs:241-292 | an upload not yet shown always has a command queued or under way that shows it or discards its surface, although a Present may be dropped when the queue is full |
| RdpRenderer.RestShowsNewest | rust/src/android_vulkan.rs:295-329 | with the queue empty and both threads at rest, a surface shows exactly the newest frame placed and not discarded since, by a detach or a new attach, whether it was placed before the surface was there or after |
| RdpRenderer.PlacedIsPending | rust/src/android_vulkan.rs:158-189 | a complete frame placed without a surface waits under its own number with its own picture |
| RdpRenderer.PendingLeaves | rust/src/android_vulkan.rs:295-329 | a waiting frame leaves its slot only by a detach, for a newer frame, or onto the surface, which then displays it or a newer one |
| RdpRenderer.CommandDoes | rust/src/android_vulkan.rs:234-292 | what each command brings about: an attach makes a surface if one can be created and shows a waiting frame on it at once, a detach leaves neither, a present shows what was uploaded, a stop ends the thread |
| RdpRenderer.StoppedForGood | rust/src/android_vulkan.rs:286-289 | after a stop no command is taken or queued any more |
| RdpRenderer.CommandsInOrder | rust/src/android_vulkan.rs:90-137 | commands are handled in the order they were queued, none lost and none made up |
| RdpRenderer.FrameIsAnnounced | rust/src/android_vulkan.rs:139-200 | a complete frame is placed and, when the queue has room, announced by the decoder's next three actions |
| RdpRenderer.FramesAreRendered | rust/src/android_vulkan.rs:139-200 | every rendered frame gets the next number, in order, and a Present is offered only for a surface or a waiting frame |
| RdpRenderer.ShortFrameRefused | rust/src/android_vulkan.rs:155-200 | a frame with a short buffer is neither kept nor announced, and no number is recorded for it |
| RdpRenderer.ShortBufferSpoilsIff | rust/src/android_vulkan.rs:521-540 | after a short buffer that made the texture, the next frame of the same size comes out right for every content if and only if its dirty rectangle covers the whole frame: full-length buffers are a real assumption |
| RdpRenderer.ShortBufferSpoilsNextFrame | rust/src/android_vulkan.rs:521-540 | the witness: two frames, the first with a short buffer, after which the texture differs from the second frame |
| ModeTracker.TerminalModeTracker.Scan | android/app/src/main/kotlin/jp/yts/termethis/NativeTerminalPlatformView.kt:428-471 | a chunk moves the recogniser byte by byte, starting from wherever the last chunk left it |
| ModeTracker.TerminalModeTracker.UpdateModes | android/app/src/main/kotlin/jp/yts/termethis/NativeTerminalPlatformView.kt:473-488 | each parameter that is a 32-bit number sets its mode, in order, and the mouse flag follows |
| ModeTracker.TerminalModeTracker.Reset | android/app/src/main/kotlin/jp/yts/termethis/NativeTerminalPlatformView.kt:416-426 | back to the initial state |
| ModeTracker.ChunksDoNotMatter | android/app/src/main/kotlin/jp/yts/termethis/NativeTerminalPlatformView.kt:428-471 | scanning two chunks equals scanning their concatenation |
| ModeTracker.StateMeaning | android/app/src/main/kotlin/jp/yts/termethis/NativeTerminalPlatformView.kt:428-471 | each state and buffer says exactly which beginning of a mode setting the stream ends in |
| ModeTracker.FiresExactlyAtSettings | android/app/src/main/kotlin/jp/yts/termethis/NativeTerminalPlatformView.kt:447-470 | modes are updated at a byte if and only if the stream then ends in `ESC [ ?`, at most 64 digits or semicolons and `h` or `l`, and with exactly those parameters |
| ModeTracker.ModesAreLastAssignments | android/app/src/main/kotlin/jp/yts/termethis/NativeTerminalPlatformView.kt:428-488 | after any stream since a reset each tracked mode is what the last such setting made it, and the mouse is active exactly when mode 1000, 1002 or 1003 is |
| ModeTracker.SplitRebuilds | android/app/src/main/kotlin/jp/yts/termethis/NativeTerminalPlatformView.kt:474-476 | splitting at semicolons is inverse to joining |
| ModeTracker.NumberIsNumeral | android/app/src/main/kotlin/jp/yts/termethis/NativeTerminalPlatformView.kt:473-476 | a part counts as what its digits say in decimal notation, unless it is empty or exceeds a signed 32-bit integer |
| ModeTracker.PartsAreDigits | android/app/src/main/kotlin/jp/yts/termethis/NativeTerminalPlatformView.kt:447-476 | the parts of recognised parameters consist of digits |
| WriteScheduler.TerminalView.EnqueueWrite | android/app/src/main/kotlin/jp/yts/termethis/TermuxTerminalPlatformView.kt:190-207 | a write is queued behind the others and a frame posted if none is; without bytes, or on a disposed view, it is answered with an error at once and nothing changes |
| WriteScheduler.TerminalView.DrainWrites | android/app/src/main/kotlin/jp/yts/termethis/TermuxTerminalPlatformView.kt:209-235 | a frame feeds a number of slices that ends where the budget does, at least one when writes wait, and terminates on empty writes; what the emulator was told followed by what is still to be told stays the same |
| WriteScheduler.TerminalView.WriteSlice | android/app/src/main/kotlin/jp/yts/termethis/TermuxTerminalPlatformView.kt:214-230 | one slice: the reset before the first byte only, up to 8 KiB, and the answer with the last byte; what the emulator was told followed by what is still to be told stays the same |
| WriteScheduler.TerminalView.Dispose | android/app/src/main/kotlin/jp/yts/termethis/TermuxTerminalPlatformView.kt:176-188 | every queued write gets the dispose error in order and the posted frame is withdrawn |
| WriteScheduler.NothingLostOrReordered | android/app/src/main/kotlin/jp/yts/termethis/TermuxTerminalPlatformView.kt:209-235 | for every budget, what the emulator was told followed by what is queued is exactly the accepted writes in order, each reset once before its own data |
| WriteScheduler.AnsweredInOrder | android/app/src/main/kotlin/jp/yts/termethis/TermuxTerminalPlatformView.kt:176-235 | every accepted write is answered once and in order: success only after it and all writes before it were fed, the dispose error only after disposal, and none is left over |
| WriteScheduler.FramePostedIff | android/app/src/main/kotlin/jp/yts/termethis/TermuxTerminalPlatformView.kt:203-235 | a frame is posted exactly while writes wait and the view is not disposed |
| WriteScheduler.AcceptedAreMade | android/app/src/main/kotlin/jp/yts/termethis/TermuxTerminalPlatformView.kt:176-207 | the accepted writes are exactly those made before disposal, in order |
| WriteScheduler.FrameGoesOn | android/app/src/main/kotlin/jp/yts/termethis/TermuxTerminalPlatformView.kt:209-235 | a frame that gets through n slices of 8 KiB leaves n fewer and posts the next exactly while some are left; when none are, everything written has been fed and answered |
| ShellBuffer.ShellService.AppendShellOutput | android/app/src/main/kotlin/jp/yts/termethis/DiagnosticsUserService.kt:223-232 | output of the current process is appended and the oldest chunks dropped until the cap is met; any other process is ignored |
| ShellBuffer.ShellService.ReadShellOutput | android/app/src/main/kotlin/jp/yts/termethis/DiagnosticsUserService.kt:167-187 | a read returns exactly the first min(limit, total) bytes and keeps the rest, splitting a chunk if need be |
| ShellBuffer.ShellService.StartShell | android/app/src/main/kotlin/jp/yts/termethis/DiagnosticsUserService.kt:109-157 | a start with a live owner changes nothing; otherwise the buffer is emptied, even when the new process cannot be started |
| ShellBuffer.ShellService.StopShell | android/app/src/main/kotlin/jp/yts/termethis/DiagnosticsUserService.kt:191-202 | a stop gives up ownership and keeps the buffer |
| ShellBuffer.ShellService.ReaderEnds | android/app/src/main/kotlin/jp/yts/termethis/DiagnosticsUserService.kt:131-141 | a reader thread that ends gives up ownership only for its own process |
| ShellBuffer.TakenThenLeft | android/app/src/main/kotlin/jp/yts/termethis/DiagnosticsUserService.kt:171-185 | what a read returns followed by what it leaves is what was buffered |
| ShellBuffer.TrimmedFits | android/app/src/main/kotlin/jp/yts/termethis/DiagnosticsUserService.kt:228-230 | after dropping, the rest is within the cap |
| ShellBuffer.TrimmedIsMinimal | android/app/src/main/kotlin/jp/yts/termethis/DiagnosticsUserService.kt:228-230 | each dropped chunk had to go: from it on, the output was over the cap |
| ShellBuffer.OutputConserved | android/app/src/main/kotlin/jp/yts/termethis/DiagnosticsUserService.kt:109-232 | over every run, the bytes the owners wrote since a start last took effect are, in order, delivered or dropped bytes followed by the buffered ones |
| ShellBuffer.EventsDecide | android/app/src/main/kotlin/jp/yts/termethis/DiagnosticsUserService.kt:109-232 | the owner is the last process started, until it ends or the shell is stopped; nothing else moves ownership, and only the owner's bytes are received |
| ShellBuffer.ReadDelivers | android/app/src/main/kotlin/jp/yts/termethis/DiagnosticsUserService.kt:167-187 | a read hands out the oldest bytes, at least one and at most 64 KiB if there are as many, and drops nothing |
| ShellBuffer.AppendDrops | android/app/src/main/kotlin/jp/yts/termethis/DiagnosticsUserService.kt:223-232 | the owner's output goes to the end; whole chunks go at the front, only when the cap demands it and no more than it demands |
| ShellBuffer.CounterIsSum | android/app/src/main/kotlin/jp/yts/termethis/DiagnosticsUserService.kt:109-232 | between calls the counter equals the buffered bytes and is at most 1 MiB |
| ShellBuffer.OnlyTheLatestProcess | android/app/src/main/kotlin/jp/yts/termethis/DiagnosticsUserService.kt:109-138 | everything buffered or delivered since the last emptying came from the process started last |
| Utf8.DecodeEncode | rust/src/api/core.rs:826 | decoding inverts UTF-8 encoding for every text |
| Utf8.EncodeDecode | rust/src/api/core.rs:826 | whatever is accepted as text is that text's only encoding |
| Socks5.Socket.Negotiate | rust/src/api/core.rs:803-835 | the exchange read off a stream: the request, how much was consumed, and the reply written, for every input including every early end |
| Socks5.Socket.ReadHost | rust/src/api/core.rs:816-834 | the address in each of its three forms, or the error |
| Socks5.ClientIsUnderstood | rust/src/api/core.rs:803-835 | every greeting offering method 0 followed by a CONNECT request yields that address and port, consumes exactly those bytes and leaves the payload (sections 3 and 4 of RFC 1928) |
| Socks5.OnlyRequestsAreAccepted | rust/src/api/core.rs:803-835 | every accepted stream begins with such a greeting and the encoding of the reported request, up to the reserved byte |
| Socks5.TooShortIff | rust/src/api/core.rs:803-835 | an outcome other than a premature end is not changed by further bytes, and every stream that ends too early has a continuation that is settled |
| Socks5.Refusals | rust/src/api/core.rs:803-835 | which complaint a stream of sufficient length meets first, and what is written back |
| Socks5.CommandIsEnough | rust/src/api/core.rs:814-816 | a wrong version or command is refused as soon as its byte is there |
| SseCodec.I32RoundTrip | rust/src/frb_generated.rs:2035-2040 | two's-complement 32-bit integers survive in either byte order |
| SseCodec.I32Layout | rust/src/frb_generated.rs:2035-2040 | the four bytes of an integer are its value modulo 2^32, in the machine's byte order |
| SseCodec.I64RoundTrip | rust/src/frb_generated.rs:2042-2047 | two's-complement 64-bit integers survive in either byte order |
| SseCodec.BytesRoundTripIff | rust/src/frb_generated.rs:3482-3490 | a byte vector survives if and only if its length is below 2^31 |
| SseCodec.StringRoundTrip | rust/src/frb_generated.rs:3444-3449 | text survives through its UTF-8 bytes |
| SseCodec.OptionRoundTrip | rust/src/frb_generated.rs:2113-2122 | optional text survives |
| SseCodec.StringsRoundTripIff | rust/src/frb_generated.rs:3472-3480 | a vector of texts survives if and only if its length is below 2^31 |
| SseCodec.JumpRoundTrip | rust/src/frb_generated.rs:3801-3813 | a jump host survives in front of any bytes |
| SseCodec.RequestRoundTrip | rust/src/frb_generated.rs:3739-3754 | a connect request with its nested jump hosts is recovered from its encoding followed by any bytes, leaving exactly those bytes |
| SseCursor.Serializer.EncodeConnectRequest | rust/src/frb_generated.rs:3739-3754 | the eleven fields pushed one by one append exactly the request's encoding |
| SseCursor.Serializer.EncodeVecJumpHost | rust/src/frb_generated.rs:3512-3520 | the counted loop appends exactly the vector's encoding |
| SseCursor.Serializer.EncodeVecString | rust/src/frb_generated.rs:3472-3480 | the counted loop appends exactly the vector's encoding |
| SseCursor.Deserializer.DecodeConnectRequest | rust/src/frb_generated.rs:2440-2468 | advancing the cursor field by field yields what decoding the unread bytes yields, or panics when that does |
| SseCursor.Deserializer.DecodeVecJumpHost | rust/src/frb_generated.rs:2099-2111 | the counted loop yields the decoded vector, a negative length panics |
| SseCursor.Deserializer.DecodeVecU8 | rust/src/frb_generated.rs:2061-2071 | the counted loop yields the decoded bytes, a negative length panics |
| SseCursor.SendAndReceive | rust/src/frb_generated.rs:3739-3754 | a request written by one end is what the other end reads, whatever follows it |
| DocumentCopy.SanitizeIsSafe | android/app/src/main/kotlin/jp/yts/termethis/SftpFileTransferChannel.kt:233-236 | a cleaned name is non-empty, at most 255 characters, is neither `.` nor `..`, and holds no separator or NUL |
| DocumentCopy.SanitizeMeans | android/app/src/main/kotlin/jp/yts/termethis/SftpFileTransferChannel.kt:233-236 | cleaning cuts blanks off both ends, puts an underscore for each separator and NUL, keeps everything between, and replaces only what is then empty or a dot name |
| DocumentCopy.SanitizeKeeps | android/app/src/main/kotlin/jp/yts/termethis/SftpFileTransferChannel.kt:233-236 | a name that is already safe and has no blank at either end is kept |
| DocumentCopy.CandidatesAreDistinct | android/app/src/main/kotlin/jp/yts/termethis/SftpFileTransferChannel.kt:223-231 | numbered candidates never repeat |
| DocumentCopy.Pigeonhole | android/app/src/main/kotlin/jp/yts/termethis/SftpFileTransferChannel.kt:223-231 | as many candidates tried, as many names in use: the search ends |
| DocumentCopy.RelabelledHasSameShape | android/app/src/main/kotlin/jp/yts/termethis/SftpFileTransferChannel.kt:167-202 | the tree a copy makes has the document tree's shape and contents, each name the cleaned one, numbered or not |
| DocumentCopy.RelabelledIsWellFormed | android/app/src/main/kotlin/jp/yts/termethis/SftpFileTransferChannel.kt:167-202 | names within one directory of that tree are plain and distinct |
| DocumentCopy.OnePlaceEach | android/app/src/main/kotlin/jp/yts/termethis/SftpFileTransferChannel.kt:167-202 | every document has a destination of its own |
| DocumentImport.Importer.UniqueChild | android/app/src/main/kotlin/jp/yts/termethis/SftpFileTransferChannel.kt:223-231 | the first free candidate is returned, and the loop ends |
| DocumentImport.Importer.CopyEntry | android/app/src/main/kotlin/jp/yts/termethis/SftpFileTransferChannel.kt:183-197 | one listed document is copied or queued under its cleaned, numbered name, or the copy stops at one that cannot be read, leaving nothing or a part of it at that name |
| DocumentImport.Importer.CopyTree | android/app/src/main/kotlin/jp/yts/termethis/SftpFileTransferChannel.kt:167-202 | the queue loop ends on every finite tree, fails exactly on a document that cannot be read, before or halfway, and otherwise leaves exactly the renamed tree at the destination; in both cases everything else is as it was |
| DocumentImport.Importer.ImportDirectory | android/app/src/main/kotlin/jp/yts/termethis/SftpFileTransferChannel.kt:128-145 | the picked tree arrives whole under its cleaned name, or the transfer directory is gone again and nothing has changed |

## Left out

- russh, russh-sftp, vnc-rs, IronRDP, wgpu, Flutter, Compose, JNI, Shizuku binding and notification code: only the results of their operations appear, chosen freely.
- Clocks: the coalescing deadline, the host-key timeout, the refresh interval and the drain budget are free choices of when.
- Direct, unstaged transfers and downloads: no staging, nothing beyond a copy loop.
- Tunnels other than the SOCKS5 reader: starting checks for another remote forward before it waits, and stopping may notify nobody, so neither uniqueness nor eventual stopping is a property of the code.
- Poisoned mutexes, exhaustion of ids, file names that are not UTF-8, symbolic-link targets and name-length limits of file systems.
- Error texts, the output buffer's error slot, capacity trimming, the renderer's last error and viewport scaling: none of them feeds back into what is proved.
- Exec-only SSH connections: they use the same handler as a file transfer connection and open no session.
- Key decoding, RSA hash choice, key and mouse packets, diagnostics percentiles and log capture: easy members.
- Importing single files and exporting: the naming is the tree import's, the rest one copy.
- The other records of the wire codec: they are made of the same integers, texts, options and vectors.
- DocumentCopy.SanitizeIsSafe: counts characters, not UTF-16 code units, and so does not model a cut in the middle of a surrogate pair.
- DocumentImport.Importer.CopyEntry: creating a local directory succeeds; a file may be left out or left partial.
- DocumentImport.Importer.CopyTree: the same.
- DocumentImport.Importer.ImportDirectory: the same, and deleting the transfer directory after a failure succeeds.
- DirectoryUpload.CopyStream: no cancellation, read error or refused write; those are StagedUploads, where chunks may fail or stop at any point.
- DirectoryUpload.SendEntry: no refused request and no cancellation between entries; those are StagedUploads.
- DirectoryUpload.SendTree: the same, and the local tree does not change during the walk.
- DirectoryUpload.RunSftpUploadTree: every request a server can carry out is carried out and the local tree does not change; the interleaved, failing case is StagedUploads, joined by UploadAgreement.SameOutcome.
- DirectoryUpload.StartUploadDirectory: the same, with free staging names.
- SseCodec.RequestRoundTrip: texts and vectors are below 2^31 in length; longer vectors are covered by the two if-and-only-if members.
- Socks5.Socket.ReadHost: addresses keep their bytes; their printed form is not part of this model.
- RdpRenderer.VulkanSurface.Upload: the copy into the texture is one function of the region and the buffer; the GPU queue is not part of this model.
- HostKeys.StepKeeps: storing a pending host key and returning its id to the caller is one step.
- VncFrame.VncSession.CopyRect: the saved source is a list of rows where the code keeps them end to end.
