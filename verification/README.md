# A verified model of a BitTorrent client

The project models the parts of a Go BitTorrent client that keep redundant state, interleave steps or
parse untrusted bytes, and proves what they keep in every run.

- **Download engine.** The piece picker (counters, block states, piece flags, peer bitmaps, availability,
  end-game), the torrent manager (block buffers, assembly, digest check, writes), the per-peer request
  pipeline, and a seeder as the honest other side. `EndToEnd.Download` is the main theorem: if every piece
  message is a seeder's answer to some request sent before, then whatever the order, repetition, time-outs
  and peer changes, once done is reported the writes, applied in any order, leave exactly the seeder's data.
  `Completion.CanFinishIff` is its companion: over runs of the event loop, exactly from which states honest
  peers can still complete a download, and `Completion.CompletableIff` which torrents they can complete.
- **Bencode.** The cursor decoder and the sorting encoder, with the round trip and the locality on which
  the info hash and the metadata exchange rely, and the metadata exchange itself.
- **DHT.** XOR distance, the routing table and the iterative lookup for every behaviour of the network.
- **Worker pool.** The concurrent downloader as interleaved steps over bounded channels.

Code that changes fields in place is modelled by classes and loops (`PiecePickerClass.PiecePicker`,
`TorrentManagerClass`, `RoutingTableClass.RoutingTable`, `DhtClient.DHT`, the decoders, the encoder, the
seeder). Each method is proved against a function or relation of a value model, and the theorems about runs
are proved about that model: a run is any sequence of steps, so every interleaving of mutex-protected calls
is covered. The two channel protocols without an object of their own, the event loop and the worker pool,
are step relations.

The manager is modelled twice. `ManagerModel` allows its steps in any order, which is more than the program
can do; what is proved of every such run holds of the program. `EventLoop` adds the discipline of the one
goroutine that handles messages: a message or tick is handled only while it waits, a piece message only after
a connection read it, then the request loop goes through the connections, skips those that are choked and
stays with each of the others until five requests are tracked or there is nothing to ask, and the clock never
goes back. Statements that some run exists are about these runs, and every one of them is a run of
`ManagerModel` (`EventLoop.LoopRunIsRun`).

The peers of `EventLoop` are honest: a connection reads only answers to requests that were sent over that
connection, each request is answered at most once, and nothing is read while the peer chokes; a request that
was not answered may still be when the peer stops choking. What was asked of a connection is lost with it. A
connection is open until a disconnect of its address is handled. That includes one whose place in the table
was taken: `AddPeer` does not close the connection it replaces (`download/manager.go:69-81`), and the session
dials addresses again while they are connected (`download/session.go:80-131`, `peer/pool.go:85-104`). Such a
connection goes on reading, so `Loop.older` keeps what was asked of it, until `Closes` takes it away.

## Files

| files | contents |
|---|---|
| `Arith`, `Sorting`, `Bytes`, `Layout`, `Wire` | arithmetic, sequences in order, bytes and words, pieces and blocks, message framing |
| `PickerModel`, `PickerAccounting`, `PickerRuns`, `PickerTimes`, `PickerChoice`, `StalledList`, `PiecePicker` | the picker: operations, invariant, whole runs, time stamps, choice and availability, the list of expired requests, the class |
| `Seeder`, `SeederReplies` | loading, bitfield, serving; what is answered to what |
| `ManagerModel`, `ManagerRuns`, `EndToEnd`, `RequestLoop` | the manager: steps, invariant and runs, the end-to-end theorem, the request loop |
| `BlockHistory`, `EventLoop`, `Awaiting`, `Losses` | what happens to a block and who was asked for it, the event loop, who can still answer, blocks whose requests are all lost |
| `Starving`, `Quiet`, `Delivery`, `Requesting`, `Finishing`, `Completion`, `EndGameTrap` | when a download can still be completed |
| `TorrentManager` | the connection and manager classes |
| `Bencode`, `BencodeGrammar`, `BencodeText`, `BencodeCanon`, `BencodeDecoder`, `BencodeEncoder` | parser and what it accepts, printer, round trip and what it prints, the methods |
| `Metadata`, `MetadataResult` | the metadata exchange and its result |
| `NodeDistance`, `Closest`, `NodeSort`, `RoutingModel`, `RoutingTable`, `PeerValues`, `Lookup`, `DhtClient` | IDs and distance, the k closest of a set, sorting, the table, peer lists, the lookup |
| `WorkerPool`, `PoolRuns`, `PoolFailures`, `PoolOutcome` | the pool: steps, invariant, what downloads bring and why it fails, termination and result |

## Where the code is not what its comments say

- A piece that fails its digest is not queued again, although `download/manager.go:236-237` says so:
  `MarkFailed` only reverts Pending blocks (`download/picker.go:320`) and the piece stays complete
  (`ManagerRuns.RevertLeavesPicker`). `ManagerRuns.DoneMeansVerifiedIff` says exactly when done means
  written, and `Completion.DoneWithoutWrite` that any wrong piece of any torrent of five blocks can end in
  done without a write.
- The request loop (`download/manager.go:288-294`) has no measure in end-game. `RequestLoop` says exactly
  when it can go on for ever and when it cannot end at all. As the event loop handles nothing meanwhile, a
  torrent of fewer than five blocks never completes among honest peers (`Completion.CompletableIff`).
- End-game is said to start when no block of the torrent is unrequested (`download/picker.go:212`); the code
  looks at the pieces of the asking peer only, and never clears the flag. A block that is unrequested from then
  on is never asked for again, so losing a connection in end-game makes the download impossible to complete if a
  block is then missing that no other open connection was asked for (`Losses.LeftBehindCannotFinish`).
  `Completion.CanFinishIff` says exactly from which states honest peers can still complete a download,
  `Completion.NoConnectionLeft` what that means when all connections are lost, and `EndGameTrap.TrapExists` that
  a single honest peer that has only the first piece can bring any torrent of several pieces into one of the
  others.
- A peer that is added under a live address replaces the connection without closing it, and a disconnect of the
  old one then removes the new one (`download/manager.go:73`, `download/manager.go:151-153`).
- Registering a live address forgets its bitmap without lowering the counts (`download/picker.go:95`);
  `PickerChoice.AvailabilityExact` proves that this is the only way for the counts to become wrong, and
  `PickerChoice.AvailabilityWrong` that it is one.
- The seeder adds offset and length of a request in 32 bits (`seeder/handler.go:96`); `Seeder.PanicsIff` says
  for which requests the slice after it is out of range.

## Model

| member | source | states |
|---|---|---|
| `Layout.BlocksTile` | `download/picker.go:45-88` | The blocks of all pieces tile the file: every offset below the total lies in exactly one block of one piece, and no block reaches beyond. |
| `PickerAccounting.StepKeepsInv` | `download/picker.go:91-355` | Every picker operation keeps the books: pendingCount and completed count the Pending and Completed blocks, a piece is flagged exactly when all its blocks are Completed, owners of Pending blocks are registered, the blocks keep their places. |
| `PickerAccounting.RunKeepsInv` | `download/picker.go:45-362` | The same in every state of every run from a new picker. |
| `PickerRuns.BlockTransition` | `download/picker.go:99-355` | The complete transition table of a block: what becomes Pending, Unrequested or Completed, and by which call; Completed is never left. |
| `PickerRuns.RunLater` | `download/picker.go:213-246` | Between any two states of a run, Completed blocks and piece flags persist, end-game is a latch, and once it is set no block moves from Unrequested to Pending. |
| `PickerRuns.EndGameOnlyDelivers` | `download/picker.go:282-288` | In end-game an Unrequested block stays so until a piece message for it arrives. |
| `PickerRuns.NoSecondGrant` | `download/picker.go:218-232` | Before end-game a block is granted twice only if in between its request failed, timed out or lost its owner. |
| `PickerRuns.OwnersRegistered` | `download/picker.go:99-126` | In every reachable state the owner of a Pending block is a registered peer. |
| `PickerRuns.SkippingLosesNothing` | `download/picker.go:113-125` | Skipping complete pieces when requests are taken back gives what scanning every block would. |
| `PickerRuns.CompletedIsAllDone` | `download/picker.go:358-362` | The block counter reaches the total exactly when every piece is flagged. |
| `PickerRuns.ReportMeaning` | `download/picker.go:253-305` | MarkCompleted returns the piece, or -1 if it refuses; it reports a piece exactly with its last missing block, and the torrent exactly with the last missing piece. |
| `PickerRuns.DoneWasReported` | `download/picker.go:290-302` | In every run a piece is flagged exactly when some earlier call reported it. |
| `PickerRuns.PieceReportedOnce` | `download/picker.go:261-302` | No piece is reported twice in a run. |
| `PickerRuns.NothingAfterTorrentDone` | `download/picker.go:299-304` | Torrent-done comes with the last piece; afterwards nothing is reported again. |
| `PickerTimes.StampTransition` | `download/picker.go:218-246` | Owner and time stamp of a block over any call: every grant stamps it, in both modes; the first sets the owner, a release clears it, and the piece message sets it to the sender; nothing else changes either. |
| `PickerTimes.StaleIff` | `download/picker.go:332-354` | In every run a tick takes a Pending block back if and only if its last grant, in either mode, is older than the timeout. |
| `PickerTimes.StaleSinceEveryGrant` | `download/picker.go:332-354` | If clock readings do not decrease, a block that a tick takes back was not granted to anybody within the timeout. |
| `PickerChoice.NextBlockAnswers` | `download/picker.go:202-248` | In normal mode the call fails only if the peer has no incomplete piece; the call that switches to end-game returns a block; in end-game it fails exactly when no piece of the peer has a Pending block. |
| `PickerChoice.NextBlockExact` | `download/picker.go:206-246` | The block returned is the first wanted block of a piece of minimal availability among the peer's pieces that have one; it is stored as returned, stamped with the time of the call in both modes, and but for that it differs from the old one only outside end-game, in state and owner; nothing else in the picker changes but the pending counter and end-game. |
| `PickerChoice.RunAvailability` | `download/picker.go:91-167` | In every run availability is the number of holders plus the number of times the piece was forgotten by registering a live address. |
| `PickerChoice.AvailabilityExact` | `download/picker.go:95` | It never undercounts and is exact if and only if that never happened. |
| `PickerChoice.AvailabilityWrong` | `download/picker.go:91-96` | Register, have, register: the count is 1 and nobody has the piece. |
| `PickerChoice.NothingGranted` | `download/picker.go:202-248` | A call without a result means that the peer has no incomplete piece or, in end-game, none with a request outstanding. |
| `PickerChoice.BitfieldIsHaves` | `download/picker.go:129-167` | A bitfield message has the effect of Have messages for its in-range set bits, in any order. |
| `PiecePickerClass.PiecePicker.constructor` | `download/picker.go:45-88` | The nested loops build the fresh picker of the model. |
| `PiecePickerClass.PiecePicker.RegisterPeer` | `download/picker.go:91-96` | The new state is the model's registration. |
| `PiecePickerClass.PiecePicker.UnregisterPeer` | `download/picker.go:99-126` | Counts lowered, bitmap deleted, the peer's Pending blocks taken back. |
| `PiecePickerClass.PiecePicker.UpdatePeerBitfield` | `download/picker.go:129-149` | The loop over bits merges the bitfield and raises the counts of new pieces only. |
| `PiecePickerClass.PiecePicker.UpdatePeerHave` | `download/picker.go:152-167` | One bit, in range and not yet set. |
| `PiecePickerClass.PiecePicker.NextBlock` | `download/picker.go:171-249` | Gather, sort, switch and scan together are a step of the choice relation, whatever order the sort gives equal counts. |
| `PiecePickerClass.PiecePicker.MarkCompleted` | `download/picker.go:253-305` | The new state and the three results are the model's, including all refusals. |
| `PiecePickerClass.PiecePicker.MarkFailed` | `download/picker.go:308-328` | Only a Pending block is put back. |
| `PiecePickerClass.PiecePicker.GetStalledRequests` | `download/picker.go:332-355` | Exactly the expired requests are taken back; the list has those blocks as they were, each once and nothing else, by piece and then by offset. |
| `PiecePickerClass.PiecePicker.IsCompleted` | `download/picker.go:358-362` | True exactly when the counter has reached the total. |
| `Wire.StreamRoundTrip` | `peer/message.go:34-86` | Any messages framed one after another are read back as written, and the stream is left at what follows. |
| `Wire.FrameBytes` | `peer/message.go:79-86` | A frame is the length, the identifier and the payload; a keep-alive is four zeros. |
| `Wire.ReadIff` | `peer/message.go:34-63` | A message is read exactly if all its bytes are there, and what was read is the frame that was there. |
| `Bytes.Uint32Is` | `peer/message.go:107-112` | Words are read with the most significant byte first. |
| `Wire.RequestParses` | `peer/message.go:107-112` | A request payload parses to its three numbers, modulo 2^32. |
| `Wire.PieceParses` | `seeder/handler.go:102-107` | A piece payload parses to its index, offset (modulo 2^32) and block. |
| `Seeder.LoadPieces` | `seeder/storage.go:36-63` | Succeeds if and only if the length and every digest are right, and then returns the pieces in order. |
| `Seeder.BuildBitfield` | `seeder/storage.go:67-76` | Exactly the first numPieces bits are set. |
| `Seeder.SeederHasAll` | `seeder/storage.go:67-76` | A peer that sends this bitfield is recorded as having every piece. |
| `Seeder.HandlePeer` | `seeder/handler.go:47-119` | The message loop sends the conversation that `SeederReplies.ConversationReplies` describes. |
| `SeederReplies.ConversationReplies` | `seeder/handler.go:49-119` | Message by message: 2 is answered by 1, 3 by 0, a request inside a piece by the piece if the last change of interest was to interested, and nothing else is answered; the replies come in the order of the messages, up to the end or to the first request that makes the slice fail. |
| `Seeder.SentPiecesAreTrue` | `seeder/handler.go:79-107` | Every piece message sent answers an earlier request, made while interested, with the bytes asked for. |
| `Seeder.ServesBlock` | `seeder/handler.go:84-109` | A request inside a piece is answered with exactly that block. |
| `Seeder.PanicsIff` | `seeder/handler.go:88-103` | The slice is out of range exactly when the index is in range and offset plus length reaches 2^32 and wraps to at most the piece's length. |
| `Seeder.InsideNeverPanics` | `seeder/handler.go:96-103` | A request inside a piece never does that. |
| `ManagerRuns.ManagerStepKeepsInv` | `download/manager.go:69-296` | Every step of the manager keeps picker, buffers, log, done channel and pipelines consistent. |
| `ManagerRuns.RunKeepsManagerInv` | `download/manager.go:69-296` | The same in every state of every run. |
| `ManagerRuns.StepVerdict` | `download/manager.go:200-249` | The log grows exactly when a piece completes, by the verdict on its assembled bytes: the missing-buffer and missing-block branches are never taken. |
| `ManagerRuns.StepBuffers` | `download/manager.go:182-246` | A piece message is kept under its piece and offset and replaces what was there; when its piece completes, everything of the piece is let go, whatever the verdict; nothing else is touched. |
| `ManagerRuns.AssembledIs` | `download/manager.go:214-230` | Assembly succeeds exactly if every block is there, and every byte is what the last block that reaches over it says, or 0. |
| `ManagerRuns.RunPartition` | `download/manager.go:174-249` | In every run a piece is incomplete, written once or refused once; writes have the piece's length and digest; the done channel is closed at most once, and then every piece has its verdict; no peer tracks more than five requests. |
| `ManagerRuns.RegionsDisjoint` | `download/manager.go:306-308` | Writes of different pieces touch disjoint regions. |
| `ManagerRuns.DoneIsFinal` | `download/manager.go:189-196` | After the done channel is closed nothing is written and it is not closed again. |
| `ManagerRuns.RevertLeavesPicker` | `download/manager.go:264-275` | Reverting a complete piece changes nothing in the picker. |
| `ManagerRuns.RejectedByMismatch` | `download/manager.go:232-239` | A piece is refused for good exactly when some step completed it with a wrong digest. |
| `ManagerRuns.DoneMeansVerifiedIff` | `download/manager.go:194-239` | Once done, a piece was written if and only if no step completed it with a wrong digest. |
| `ManagerRuns.ClientsBounded` | `download/manager.go:287-294` | No step takes a peer above five tracked requests. |
| `EndToEnd.StorageLoop` | `download/manager.go:306-312` | The loop leaves the file that the writes in order give. |
| `EndToEnd.WriteAtIs` | `download/manager.go:306-308` | A write puts the data at its offset, extends the file if it must, and changes nothing else. |
| `EndToEnd.StoredAll` | `download/manager.go:306-308` | True writes covering every piece, in any order and with repeats, turn any file of the right length into the data. |
| `EndToEnd.Download` | `download/manager.go:174-249` | End to end: honest answers in any order, with duplicates, time-outs, failures and peer changes, give exactly the seeder's data once done is reported. |
| `EndToEnd.ServedVerdict` | `download/manager.go:232-248` | Whatever data is served, right or wrong, once done is reported every piece has the verdict it deserves: written if its digest is right, refused otherwise. |
| `EndToEnd.HonestNeverRejects` | `download/manager.go:232-239` | In such a run no piece is refused. |
| `BlockHistory.BlockMoves` | `download/manager.go:149-296` | What any step of the manager does to one block, with its cause: becoming Pending takes a request to its owner outside end-game, becoming Completed a piece message for it. |
| `BlockHistory.RunKeepsAsked` | `download/manager.go:288-294` | In every run the owner of a Pending block was sent a request for it; what a connection tracks was sent over it and not answered. |
| `BlockHistory.AbandonedNeverFinishes` | `download/picker.go:233-246` | Once end-game has left a block behind that nobody was ever asked for, no honest steps of the manager, in whatever order, report done. |
| `EventLoop.LoopRunIsRun` | `download/manager.go:124-147` | Every run of the event loop is an honest run of the manager, so all theorems about those hold of it; whatever waits to be handled answers a request that was sent. |
| `Awaiting.LoopKeepsBooks` | `download/manager.go:69-96` | In every run of the event loop the owner of a Pending block has an open connection with the request for it, or its answer waits to be handled, or it is just being removed; and registered peers are in the table or just being removed. |
| `Losses.StrandedStep` | `download/manager.go:83-96` | A missing block for which no open connection has a request and no answer waits stays so, whoever joins, reads, leaves or times out, unless a grant outside end-game asks for it. |
| `Losses.LeftBehindCannotFinish` | `download/picker.go:233-246` | In end-game such a block is the end: done is never reported, whatever the peers hold. |
| `Starving.StarvedCannotFinish` | `download/manager.go:282-295` | With fewer than five blocks missing and no registered connection that tracks enough besides, the first grant is the last thing the loop does: if such a block has to be asked for, done is never reported. |
| `Delivery.DeliversAll` | `download/manager.go:174-196` | If every missing block is awaited from some open connection, the answers complete the download, each request answered once by the connection that was asked. |
| `Finishing.RequestsAll` | `download/manager.go:282-295` | Outside end-game, one connection that has every piece and enough within reach can be asked for all that is missing, five at a time. |
| `Completion.CanFinishIff` | `download/manager.go:124-147` | Whenever the event loop waits with nothing left to handle, honest peers can complete the download if and only if every missing block is awaited from some open connection, or end-game is not on and five blocks are missing or some registered connection has five places among what it tracks and what is missing. |
| `Completion.UnfinishableNever` | `download/manager.go:124-147` | From any other state, whatever the loop is doing and whatever the peers hold, done is never reported. |
| `Completion.NoConnectionLeft` | `download/manager.go:83-96` | When all connections are lost and the loop waits, the download can be completed if and only if nothing is missing, or end-game is off and five blocks are missing. |
| `Completion.CompletableIff` | `download/manager.go:124-147` | Some run of the event loop reports done if and only if the torrent has at least five blocks. |
| `Completion.DoneWithoutWrite` | `download/manager.go:235-239` | For any torrent of five blocks and any data of its length in which piece i has a wrong digest, a run reports done with piece i refused and not written. |
| `Completion.LoopDownload` | `download/manager.go:124-147` | The end-to-end theorem for runs of the event loop. |
| `EndGameTrap.TrapExists` | `download/picker.go:213-215` | Every torrent of two or more pieces has an honest run of the event loop in which every step concerns one peer, which has the first piece and no other, and from whose end no honest continuation completes it. |
| `RequestLoop.NormalLoopEnds` | `download/manager.go:288-294` | Outside end-game the turns taken and the Unrequested blocks left add up to the Unrequested blocks at the start. |
| `RequestLoop.EndGameLoopDivergesIff` | `download/manager.go:288-294` | In end-game the loop can go on for ever if and only if the pipeline has room beyond a block it may be given; otherwise it ends within one turn. |
| `RequestLoop.EndGameNeverEndsIff` | `download/manager.go:288-294` | In end-game the loop cannot end, however ties are broken, if and only if there is a block to be given and all that is tracked or may be given together is fewer than five. |
| `RequestLoop.ShortRunIsRun` | `download/picker.go:171-249` | Four calls that put the picker into end-game. |
| `RequestLoop.DivergesExample` | `download/manager.go:288-294` | After them the loop can take any number of turns. |
| `TorrentManagerClass.PeerClient.constructor` | `peer/pipeline.go:27-35` | Nothing tracked, choked. |
| `TorrentManagerClass.PeerClient.QueueRequest` | `peer/pipeline.go:213-230` | The request is tracked under its place with its length and the time, replacing an older one there, and a message 6 with piece, offset and length is sent. |
| `TorrentManagerClass.PeerClient.NoteRead` | `peer/pipeline.go:73-91` | Choke state, tracked and unanswered requests after each kind of message. |
| `TorrentManagerClass.PeerClient.Sweep` | `peer/pipeline.go:149-184` | Exactly the requests older than 15 seconds are dropped and counted; for each a message 8 with piece, offset and length is sent and a notice with piece and offset given to the manager, in one order; the peer is given up above three. |
| `TorrentManagerClass.TorrentManager.constructor` | `download/manager.go:50-66` | The start state of the model. |
| `TorrentManagerClass.TorrentManager.AddPeer` | `download/manager.go:69-81` | The connection is entered, its address registered, and interested (2) sent. |
| `TorrentManagerClass.TorrentManager.RemovePeer` | `download/manager.go:84-96` | Both removals, if the address is active; nothing otherwise. |
| `TorrentManagerClass.TorrentManager.HandleMessage` | `download/manager.go:149-198` | The new state is the model's for every message, malformed ones included. |
| `TorrentManagerClass.TorrentManager.VerifyAndWritePiece` | `download/manager.go:200-249` | Assembly, digest check and the three ways out. |
| `TorrentManagerClass.TorrentManager.RevertPiece` | `download/manager.go:251-276` | Buffers dropped, MarkFailed on every block. |
| `TorrentManagerClass.TorrentManager.ReclaimStalled` | `download/manager.go:132-137` | The ticker takes back exactly the expired requests. |
| `TorrentManagerClass.TorrentManager.FillPipeline` | `download/manager.go:288-294` | Every turn is a step of the event loop; if it finishes, the pipeline is full or there is nothing for the peer, and the event loop has left it; if not, it sent a request in each of the turns it was given. |
| `TorrentManagerClass.TorrentManager.PipelineRequests` | `download/manager.go:278-296` | If it finishes, it is a complete fill of the event loop, and every connection is choked, or has its pipeline full, or there is nothing for it; if not, some connection was sent a request in each of the turns given. |
| `TorrentManagerClass.AssemblePiece` | `download/manager.go:214-230` | The copy loop gives the assembled piece, or nothing at the first missing block. |
| `TorrentManagerClass.HandledIsStep` | `download/manager.go:149-198` | Handling a message is one step of the model; a disconnect is the two steps of removing a peer. |
| `Bencode.ValueLocal` | `bencode/decode.go:130-148` | A successful decode depends only on the bytes it used. |
| `Bencode.SuffixIrrelevant` | `bencode/decode.go:130-148` | Appending bytes does not change it. |
| `Bencode.UsedBytesSuffice` | `bencode/decode.go:107-114` | The bytes used, alone, decode to the same value and are used up. |
| `Bencode.RawSlicesDecode` | `bencode/decode.go:85-118` | Decoding any raw slice kept by DecodeDict again gives the value in the map and uses all of it. |
| `BencodeDecoder.DecodeString` | `bencode/decode.go:9-39` | The cursor loop returns what the grammar (`BencodeGrammar`) gives, error for error, and leaves the cursor exactly there. |
| `BencodeDecoder.DecodeInteger` | `bencode/decode.go:41-60` | Likewise. |
| `BencodeDecoder.DecodeList` | `bencode/decode.go:62-82` | Likewise. |
| `BencodeDecoder.DecodeDict` | `bencode/decode.go:85-118` | Likewise, with the raw bytes of each value; a later key replaces an earlier one in both maps. |
| `BencodeDecoder.DecodeValue` | `bencode/decode.go:130-148` | Likewise, for every input: the mutual recursion ends. |
| `BencodeDecoder.Decode` | `bencode/decode.go:121-128` | The value at the front of the input, if there is one. |
| `BencodeGrammar.AtoiIff` | `bencode/decode.go:20-24` | A number is digits, with a plus, a minus or nothing in front, within 64 bits. |
| `BencodeGrammar.ParseStringIs` | `bencode/decode.go:9-39` | A string is digits up to a colon, which are its length, and as many bytes; otherwise which of the four errors. |
| `BencodeGrammar.ParseIntegerIs` | `bencode/decode.go:41-60` | An integer is any byte and the number before the next e; otherwise which of the two errors. |
| `BencodeGrammar.ItemsIff` | `bencode/decode.go:62-82` | A list is values one right after the other up to an e in place of a value. |
| `BencodeGrammar.LastEntryWins` | `bencode/decode.go:112-113` | A key has the value and the raw bytes of its last entry. |
| `BencodeText.RoundTrip` | `dht/krpc.go:21-53` | Decoding the encoding of a value followed by any bytes gives the value, with the cursor exactly at the end of the encoding. |
| `BencodeText.EncodingUnique` | `dht/krpc.go:21-53` | Different values have different encodings, and none is the beginning of another. |
| `BencodeText.AscendingUnique` | `dht/krpc.go:38-43` | The ascending order of a set of keys is unique, so map order cannot show. |
| `BencodeEncoder.SortStrings` | `dht/krpc.go:55-61` | In place, ordered, and a rearrangement. |
| `BencodeEncoder.SortedIsCanonical` | `dht/krpc.go:39-43` | Keys in whatever order the map gives them sort to the one canonical list. |
| `BencodeEncoder.EncodeBencode` | `dht/krpc.go:21-53` | The text is the canonical encoding, whatever the iteration order; the rows of `BencodeCanon` say byte for byte what that is. |
| `BencodeCanon.ItoaIff` | `dht/krpc.go:26` | The digits of a number, with no leading zero, and a minus only for a negative one: there is one such text, and it is printed. |
| `BencodeCanon.StringText` | `dht/krpc.go:24` | The length as such a numeral, a colon, the bytes. |
| `BencodeCanon.IntegerText` | `dht/krpc.go:26` | Such a numeral between i and e. |
| `BencodeCanon.ListText` | `dht/krpc.go:27-34` | The texts of the items in order between l and e. |
| `BencodeCanon.DictText` | `dht/krpc.go:35-49` | The texts of keys and values between d and e, by ascending keys. |
| `BencodeCanon.LessIff` | `dht/krpc.go:55-61` | A string precedes another if at the first difference it has the smaller byte, or ends there. |
| `Metadata.NextReply` | `peer/extension.go:117-150` | Skips to the next extension message and splits it into header and data at the decoder's cursor. |
| `Metadata.RequestMetadata` | `peer/extension.go:61-98` | The result for every stream of messages: the first reply's size, then the pieces copied into place, or the first failure. |
| `MetadataResult.RepliesIff` | `peer/extension.go:117-150` | Every extension message (20) is read as a reply in order: it is good exactly if it has a header with a type other than 2, and then gives what follows the header, and the size in the header or 0. |
| `MetadataResult.FetchIff` | `peer/extension.go:61-98` | Metadata is returned if and only if the replies that are needed are there and good, the first with a positive size; it has that size, and every byte is what the last reply that reaches over it says, or 0. |
| `MetadataResult.RefusalFails` | `peer/extension.go:136-142` | A refusal (type 2) of a piece that is needed makes the whole fail, with that reason if no earlier reply was bad. |
| `Metadata.ReplySplits` | `peer/extension.go:126-148` | A data header in front of raw bytes is split exactly where it ends. |
| `Metadata.FetchesMetadata` | `peer/extension.go:61-98` | If the extension messages answer the piece requests in order, whatever else is mixed in, the metadata is returned exactly. |
| `Metadata.StandardHeaderDelivers` | `peer/extension.go:126-148` | The encoded msg_type, piece, total_size dictionary in front of the slice is such an answer. |
| `NodeDistance.XORDistance` | `dht/node.go:25-31` | The bytewise XOR. |
| `NodeDistance.CompareDistance` | `dht/node.go:34-46` | -1, 1 or 0 exactly as the 160-bit XOR distance of a is smaller, larger or the same; 0 exactly for equal IDs. |
| `NodeDistance.DistanceInjective` | `dht/node.go:34-46` | Two nodes at the same distance are the same node, so the order is total. |
| `NodeDistance.PrefixMeaning` | `dht/routing.go:29-39` | The common prefix length is n exactly when the IDs agree on n leading bits and not on the next. |
| `NodeDistance.LongerPrefixCloser` | `dht/routing.go:27-39` | Whichever shares more leading bits with the target is strictly closer. |
| `RoutingTableClass.RoutingTable.constructor` | `dht/routing.go:23-25` | The table of the empty history. |
| `RoutingTableClass.RoutingTable.BucketIndex` | `dht/routing.go:29-39` | The nested scan finds the common prefix length, 159 for ourselves. |
| `RoutingTableClass.RoutingTable.Add` | `dht/routing.go:43-68` | The table is always that of the history of Add calls. |
| `RoutingTableClass.RoutingTable.FindClosest` | `dht/routing.go:71-88` | The min(count, Count()) nodes of the table closest to the target, closest first, nothing closer left out. |
| `RoutingTableClass.RoutingTable.Count` | `dht/routing.go:91-100` | The number of distinct IDs in the table. |
| `RoutingModel.TableKeepsOk` | `dht/routing.go:43-68` | After any Adds every node is in the bucket of its prefix length, buckets hold at most 8, IDs are distinct and never our own. |
| `RoutingModel.TableRemembers` | `dht/routing.go:51-67` | After any Adds a bucket holds exactly the first 8 IDs there were for it, each with its latest address, in the order of last sighting. |
| `RoutingModel.HigherBucketCloser` | `dht/routing.go:27-39` | Every node of a higher bucket is strictly closer to ourselves. |
| `RoutingModel.FlatTable` | `dht/routing.go:75-78` | The gathered list holds every ID of the table once. |
| `Closest.ClosestUnique` | `dht/dht.go:209-215` | The k closest of a set, in order, are determined. |
| `Closest.ClosestAbsorbs` | `dht/dht.go:188-215` | The k closest of the kept list and newcomers are the k closest of everything: what truncation dropped can be forgotten. |
| `NodeSort.SortByDistance` | `dht/dht.go:210-212` | An ordered rearrangement. |
| `Lookup.RoundKeepsOk` | `dht/dht.go:139-215` | Each round keeps the candidates the 20 closest of everything seen and the queries distinct, and asks the closest candidates not yet queried. |
| `Lookup.EveryRoundOk` | `dht/dht.go:134-215` | After every round, whatever the responses: the candidates are exactly the 20 closest of the initial table and all IDs returned, sorted and distinct; no ID was queried twice; at most three queries a round. |
| `Lookup.QueriesBounded` | `dht/dht.go:139-153` | At most 60 queries, no ID twice. |
| `Lookup.Converged` | `dht/dht.go:151-220` | A lookup that stops by itself has queried each of the 20 closest IDs it ever saw. |
| `Lookup.PeersOfRounds` | `dht/dht.go:177-186` | The peers reported are those of all answers, in the order of the queries. |
| `Lookup.PeersListed` | `dht/dht.go:177-186` | They are what the bytes of all values say, six bytes a peer, in order and with nothing else in between. |
| `Lookup.HistoryOfRounds` | `dht/dht.go:174-191` | A lookup adds to the routing table exactly the nodes that responded, under their ID and the address that was asked, and the nodes returned. |
| `DhtClient.DHT.GetPeers` | `dht/dht.go:128-227` | The loop is a sequence of such rounds; it goes on to the limit unless one of the two stop conditions holds, and stops at the first round that settles; the table continues with everything sighted; the result is the peers that the bytes of all values say, in order, or an error if there are none. |
| `DhtClient.LookupOutcome` | `dht/dht.go:134-221` | The above for XOR distance to the target, in one statement. |
| `DhtClient.ParsePeerValues` | `dht/dht.go:230-239` | One peer every six bytes, a shorter remainder ignored: four bytes of address, and a port with the most significant byte first. |
| `WorkerPool.StepConserves` | `download/concurrent.go:99-185` | No step of a worker or the collector loses or duplicates a piece: each is in exactly one of queue, worker, result channel, error channel, collected map. |
| `PoolRuns.StepKeepsInv` | `download/concurrent.go:99-185` | With that, every step keeps the work items true to their pieces, the retries equal to the attempts, and results verified. |
| `PoolRuns.RunKeepsInv` | `download/concurrent.go:51-185` | The same in every interleaving; in particular no piece is attempted more than four times. |
| `PoolRuns.SendsNeverBlock` | `download/concurrent.go:107-154` | A worker that has a retry, a result or an error to send always finds room in the channel. |
| `PoolOutcome.NoDeadlock` | `download/concurrent.go:99-185` | Until the pool shuts down some step is always possible. |
| `PoolOutcome.AlwaysShutsDown` | `download/concurrent.go:99-185` | No interleaving has more than 19 steps a piece, one a worker and one more, and only one that has shut down cannot go on. |
| `PoolOutcome.SuccessIsVerified` | `download/concurrent.go:127-198` | A successful return is the in-order concatenation of all pieces: it has the torrent's length, and at the place of every piece bytes of its length and digest. |
| `PoolFailures.RightBytesDelivered` | `download/concurrent.go:127-153` | A download that brings bytes with the digest of the piece leaves the worker about to deliver exactly those bytes. |
| `PoolFailures.CollectedIsKept` | `download/concurrent.go:174-175` | A delivered result is kept under its piece, and the others stay. |
| `PoolFailures.StepFifo` | `download/concurrent.go:52-154` | Workers take the first item of the queue; every send goes to the end of its channel. |
| `PoolFailures.RunCountsFailures` | `download/concurrent.go:105-150` | In every interleaving an item has been retried as often as downloads of its piece brought nothing or wrong bytes. |
| `PoolFailures.FailureHasReason` | `download/concurrent.go:172-190` | A failed pool has a piece that was not obtained after exactly four downloads without its bytes, or every worker has failed to connect or reported such a piece. |
| `PoolFailures.GoodPeersSucceed` | `download/concurrent.go:75-198` | With a worker, if every connect succeeds and every download brings the bytes of its piece, a run that has shut down has succeeded. |
| `PoolOutcome.FillQueue` | `download/concurrent.go:52-64` | One work item a piece, with its length and digest, within the channel's capacity. |
| `PoolOutcome.Assemble` | `download/concurrent.go:193-196` | The loop concatenates the pieces in order. |

## Left out

- Sockets, deadlines, goroutine start-up and logging: a mutex-protected call or a channel operation is one step, and clock readings are parameters.
- SHA-1 is a function parameter; nothing needs collision resistance.
- The buffer pool: payloads are values, so its ownership, and the double return of buffers after a digest mismatch, do not appear.
- Handshakes, `NewClient` and `DownloadPiece`: runs start from delivered messages, and a piece download in the pool ends in an error or in any bytes of the piece's length.
- When `Session.Download` returns relative to the storage thread: the theorems are about the sequence of writes. Write errors of the storage loop are not modelled.
- Integer wrap-around, except the 32-bit fields of messages and the seeder's 32-bit bound: in the decoder a string length whose sum with the cursor overflows counts as exceeding the data.
- Syntax and range errors of `strconv.Atoi` are one error of the model.
- An extension message with an empty payload, which makes `requestMetadataPiece` panic, is a failure of its own in the model.
- Trackers, magnet links, torrent field extraction, file paths, the CLI and the peer pool: plumbing and library wrappers.
- KRPC queries and responses, compact node lists and `Bootstrap`: fixed formats around the encoder; a response enters the lookup as an ID, nodes and values.
- The order of the message channel, its capacity, and the limit on connections: `EventLoop` keeps the piece and choke messages that were read and not handled as a bag.
- How many workers the pool starts: the theorems hold for any number.
- What the workers of the pool do after the collector has returned.
- Message IDs and the fields of messages that the modelled code ignores (cancel, keep-alive timing, inactivity limits).
- A connection that was closed without a disconnect being handled (`peer/pipeline.go:137-139`, `peer/pipeline.go:180-184` when the reader finds it closed first) counts as open in `EventLoop`.
- Completion.CanFinishIff: assumes, like EndToEnd.Download, that piece length and piece count fit the wire; an empty torrent is excluded because done is only ever reported with a block; messages that were read and not handled yet are excluded because they would be handled first.
- SeederReplies.ConversationReplies: assumes pieces shorter than 2^32 bytes; for longer ones the 32-bit end of a request can name other bytes than those asked for.
- EndToEnd.Download: assumes that piece length and piece count fit the 32-bit fields of the wire, because the request and the piece message carry them so.
- TorrentManagerClass.TorrentManager.FillPipeline: the loop is cut off after a given number of turns, because in end-game it need not end; `finished` says that it came to its own end.
- TorrentManagerClass.TorrentManager.PipelineRequests: cut off likewise.
- NodeSort.SortByDistance: stands for `sort.Slice`, whose own algorithm is not modelled; nothing but its contract is used.
- The key `"%d_%d"` of a tracked request is a pair of numbers.
