# Verification of the build farm

A Dafny model of aws-build-farm, a remote-execution server for the REAPI: its content-addressable store and
the file trees kept in it, the ByteStream and batch services, the long-running operations, the actions run in
MicroVMs, and the agent's report. `dafny verify dfyconfig.toml` checks all of it.

Octets are integers from 0 to 255 and Go strings are sequences of them. SHA-256 is any function that renders
64 lower-case hexadecimal digits and sends no bytes to the published constant; the absence of collisions is
always a premise about the finitely many blobs in play. The protobuf messages Digest, FileNode, DirectoryNode,
SymlinkNode, Directory and Tree are encoded in the real wire format. Statements about the concurrent code of
FindMissingBlobs, operations and actions are about every interleaving: each method body under a mutex, each channel
operation, each send, each store call and each call to the cloud or the agent is one step.

| file | content |
|---|---|
| `Digests.dfy`, `Strings.dfy`, `Named.dfy` | digests and their hash; splitting and decimal numbers; named lists and their sorting |
| `Wire.dfy` | the wire format and its inverse |
| `Cas.dfy` | the store, keyed by hash, and the action cache |
| `Trees.dfy`, `Merkle.dfy` | file trees, their Directory messages, and the root digest as a canonical form |
| `Capture.dfy`, `Materialize.dfy`, `EntryNames.dfy`, `RoundTrip.dfy` | trees into the store, trees out of it, and both ways round |
| `Breadth.dfy`, `Reach.dfy`, `GetTree.dfy`, `Halting.dfy`, `Traversal.dfy` | level order and reachability, the paged walk of GetTree, when it ends, and its agreement with the Tree blob |
| `Outputs.dfy` | the ActionResult of the executor agent |
| `ResourceNames.dfy`, `ByteRange.dfy`, `ByteStream.dfy`, `Integrity.dfy` | names, ranged reads, uploads and downloads, batches, and what lies under a key |
| `FindMissing.dfy` | the concurrent FindMissingBlobs |
| `Operations.dfy`, `Streaming.dfy` | operations, their waiters, and the loop of stream on real channels |
| `MicroVm.dfy`, `Execution.dfy`, `Server.dfy` | the MicroVM of a run, one runAction, and the whole server |
| `Delivery.dfy`, `Answers.dfy` | that every response reaches those who wait for it, and whose response it is |

Three properties that one might expect of the code hold only under a condition, and the exact condition is proved:

- The ranged readers of S3 and of MemStore agree exactly when the blob is absent, or it is the empty blob and the
  offset is not negative, or the read asks for all of it or starts inside it and its end does not overflow int64
  (`ByteRange.RangedReadsAgree`; `ByteRange.PastTheEnd` and `ByteRange.NegativeOffset` show the rest).
- A Write keeps every blob under its own hash exactly when its payload hashes to the digest in its name, which
  Write does not check (`Integrity.ChangeKeepsIntegrity`): any payload can be written under any other hash
  (`Integrity.AnyHashIsTaken`).
- GetTree ends exactly when, within one more level than there are blobs, the levels below the root end or a
  Directory does not resolve (`Halting.HaltsIff`). It goes on for ever exactly when everything reachable resolves
  and something reachable is among its own descendants (`Halting.LoopsIff`). One Write to an empty store can
  bring that about (`Traversal.GetTreeCanLoop`, `Traversal.LoopingStoreIsWritten`); a captured tree never does
  (`Traversal.CaptureThenGetTree`).

Where the code and its comments differ the model follows the code: the package comment of
`internal/digest/digest.go` speaks of lower-case hashes, but `Validate` accepts upper-case digits too, so a Write
may store a blob under a key that `FromBytes` never asks for (`Integrity.UpperCaseIsLost`).

## Model

| member | source | states |
|---|---|---|
| Digests.DigestIdentifies | internal/digest/digest.go:26-35 | Where no hashes collide FromBytes identifies a blob, and only the empty blob gets the digest that IsEmpty accepts |
| Digests.EmptyDigest | internal/digest/digest.go:20-35 | IsEmpty accepts exactly the digest of no bytes |
| Digests.ValidMeans | internal/digest/digest.go:42-57 | A digest is valid exactly when its hash spells 32 octets in hexadecimal, of either case, and its size is not negative |
| ResourceNames.KeyIdentifies | internal/digest/digest.go:37-40 | Two valid digests have the same "hash/size" key only if they are equal |
| ResourceNames.KeyAsWritten | internal/digest/digest.go:37-40 | Where a name spells its size without sign or leading zero, the key of the digest parsed from it is hash/size as spelled |
| Strings.DigitsOfValue | internal/server/cas_service.go:297-300 | The other half of printing and parsing: every decimal numeral without leading zeros is what its value is printed as |
| Strings.ParseSigned | internal/server/cas_service.go:297-300 | Digits parse to their value if it fits int64, a plus changes nothing, and a minus negates |
| Strings.ParseOnly | internal/server/cas_service.go:297-300 | Nothing but digits with at most one sign parses |
| Strings.ParseFormatted | internal/server/cas_service.go:297-300 | Every int64 survives being printed with %d and parsed by ParseInt, up to both ends of the range |
| Wire.DirectoryRoundTrip | internal/casfs/casfs.go:40-43 | A Directory whose strings are valid UTF-8 marshals, and unmarshals to itself, nested digests and all |
| Wire.DirectoryLayout | internal/casfs/casfs.go:178-182 | A Directory is its files under key 0x0A, its directories under 0x12 and its symlinks under 0x1A, each with its length |
| Wire.FileLayout | internal/casfs/casfs.go:165-169 | A FileNode is its name, its digest, and 0x20 0x01 if it is executable |
| Wire.SubdirectoryLayout | internal/casfs/casfs.go:152-152 | A DirectoryNode is its name and its digest |
| Wire.SymlinkLayout | internal/casfs/casfs.go:146-146 | A SymlinkNode is its name and its target |
| Wire.DigestLayout | internal/digest/digest.go:26-30 | A Digest is its hash and its size, in two's complement if negative, each left out when empty or zero |
| Wire.TreeLayout | internal/casfs/casfs.go:107-111 | A Tree is its root under key 0x0A and its children under 0x12 |
| Wire.VarintMeans | internal/casfs/casfs.go:178-182 | A varint is base 128, the lowest digit first, the high bit on all octets but the last, and no longer than needed |
| Wire.Utf8Means | internal/casfs/casfs.go:178-182 | The strings that marshal are exactly those that encode a sequence of Unicode scalar values |
| Wire.ReadTogether | internal/casfs/casfs.go:40-43 | Directories marshalled one after another unmarshal to both together, and a field that Directory does not know is skipped |
| Wire.EncodeDirectoryInjective | internal/casfs/casfs.go:178-182 | Different Directory messages have different octets |
| Wire.EmptyDirectoryIsNoBytes | internal/cas/memstore.go:42-44 | The empty Directory, and no other, marshals to no octets |
| Wire.TreeRoundTrip | internal/casfs/casfs.go:107-111 | A Tree with its root and children unmarshals to itself |
| Wire.UnmarshalledIsClean | internal/casfs/casfs.go:40-43 | Whatever unmarshals holds only valid UTF-8 |
| Named.SortKeepsFind | internal/casfs/casfs.go:173-176 | Sorting any list of unique names yields a strictly ascending list with the same lookups |
| Named.BelowMeans | internal/casfs/casfs.go:173-176 | The order of names: a proper prefix comes first, and otherwise the first octet that differs decides |
| Named.AscendingDetermined | internal/casfs/casfs.go:173-176 | An ascending list is determined by its lookups, so neither the sorting algorithm nor the order of enumeration matters |
| Cas.Store.Contains | internal/cas/memstore.go:31-39 | Present exactly when a lookup would find something; the empty blob always is |
| Cas.Store.Get | internal/cas/memstore.go:41-54 | What lies under the hash, or nothing; no octets for the empty blob |
| Cas.Store.Reader | internal/cas/memstore.go:56-69 | The octets of the range; a negative offset slices out of range |
| Cas.SliceIsRange | internal/cas/memstore.go:61-67 | The range runs from the offset or the end, whichever is nearer, for limit octets or to the end |
| Cas.Store.Put | internal/cas/memstore.go:71-81 | The key changes, and nothing else; nothing is stored for the empty blob |
| Cas.Store.PutStream | internal/cas/memstore.go:83-89 | As Put, of the whole stream |
| Cas.Store.GetActionResult | internal/cas/memstore.go:91-103 | The cached result under the action's hash, a miss, or a failed read |
| Cas.Store.PutActionResult | internal/cas/memstore.go:105-114 | The cached result is replaced; a result with a string that is not UTF-8 does not marshal and changes nothing, and on a healthy store that is the only failure |
| Cas.PutKeepsHolding | internal/cas/memstore.go:71-81 | Without collisions a put under a blob's own digest makes it readable and leaves every other blob readable |
| Cas.HoldsLater | internal/cas/memstore.go:41-54 | A readable blob stays so in any later store that only gained blobs under their own hash |
| Trees.DirOfLookups | internal/casfs/casfs.go:131-176 | The message of a directory is three strictly ascending lists that answer every name as the directory does |
| Trees.CleanIffEncodable | internal/casfs/casfs.go:178-181 | The message marshals exactly when every name and symlink target is valid UTF-8 |
| Trees.FlagBits | internal/casfs/casfs.go:55-58 | A file counts as executable exactly when one of the three x bits is set, and is materialized for all to read, its owner to write, and all or nobody to execute |
| Capture.BuildDirectory | internal/casfs/casfs.go:126-187 | The message, digest and descendants of the tree, the message name by name: each file with its digest and whether an x bit is set, each symlink with its target, each directory with its digest; it fails only if a put fails or a string is not UTF-8, having made a prefix of the tree's puts |
| Capture.CaptureEntries | internal/casfs/casfs.go:134-171 | The loop gathers what all entries contribute, in order |
| Capture.CaptureDirectory | internal/casfs/casfs.go:102-121 | The root digest and the digest of one Tree blob with the root and all descendants |
| Capture.CaptureFile | internal/casfs/casfs.go:83-97 | The digest and flag of the file, whose content is put |
| Capture.EveryPrefixComplete | internal/casfs/casfs.go:134-186 | After each put, also of a capture that fails later, every Directory put so far resolves with everything below it |
| Capture.CompleteAmongOthers | internal/casfs/casfs.go:134-186 | The same if others put blobs under their own hashes between any two of its puts |
| Capture.CapturedComplete | internal/casfs/casfs.go:102-121 | After a capture the whole tree and its Tree blob resolve |
| Capture.TreeParentsFirst | internal/casfs/casfs.go:148-154 | Every child in the Tree is listed by the root or by a child before it |
| Merkle.SameTreeSameMessage | internal/casfs/casfs.go:134-186 | Trees that agree at every path up to the executable flag have the same message, however they are enumerated |
| Merkle.CanonicalForm | internal/casfs/casfs.go:134-186 | Without collisions two trees have the same root digest exactly when they agree at every path up to the executable flag |
| Materialize.Materialize | internal/casfs/casfs.go:32-80 | On success exactly the tree the digest stands for is below the directory, otherwise the first error met; as long as no message repeats a name nothing outside it changes |
| Materialize.WriteFiles | internal/casfs/casfs.go:45-60 | The files appear with their content and 0o755 or 0o644, or the first bad name, missing blob or refusal stops it |
| Materialize.WriteSymlinks | internal/casfs/casfs.go:62-69 | The symlinks appear, or the first bad name or refusal stops it |
| Materialize.WriteDirectories | internal/casfs/casfs.go:71-78 | The subtrees appear, or the first bad name or failure below stops it |
| Materialize.FirstErrorMet | internal/casfs/casfs.go:32-80 | The error is that of the first faulty entry in the order files, symlinks, directories; of a file the name is checked first, then its blob, then it is written |
| EntryNames.LegalNamesStay | internal/casfs/casfs.go:189-194 | checkName accepts exactly the names that, joined to a directory, lead to an entry of that directory |
| RoundTrip.LoadsIff | internal/casfs/casfs.go:32-80 | A root digest of whatever origin can be materialized exactly when every Directory that a path leads to resolves, with distinct and legal names, stored files, and paths and targets that the system accepts |
| RoundTrip.LoadComplete | internal/casfs/casfs.go:32-80 | A tree whose blobs are all stored loads back, unless the system refuses a path or a target |
| RoundTrip.CaptureThenLoad | internal/casfs/casfs.go:32-187 | Captured, with any hash-correct blobs stored later, a tree loads back: same names, contents, targets and executable flag at every path |
| RoundTrip.CaptureThenMaterialize | internal/casfs/casfs_test.go:14-45 | Capturing any tree and materializing its root digest rebuilds it at every path, a file with all three x bits if it had one of them and with none otherwise; on a reliable store it succeeds exactly when all strings are UTF-8 and the paths fit |
| RoundTrip.LoadedWellFormed | internal/casfs/casfs.go:45-78 | What materializes has unique, legal names, at every level |
| RoundTrip.CanonicalRecaptured | internal/casfs/casfs.go:126-187 | Loading a canonical stored Directory and taking the digest of the tree gives back the digest |
| RoundTrip.MaterializeThenCapture | internal/casfs/casfs.go:32-187 | Materializing a stored root and capturing the result gives back the root digest exactly when the stored Directories are canonical (sorted, marshalled as this server does, truly sized); LoadsIff says for which roots that is |
| RoundTrip.MaterializeThenBuild | internal/casfs/casfs.go:32-187 | The same over the two methods and the filesystem between them: capturing what was materialized succeeds on a reliable store, and returns the root digest exactly for canonical Directories |
| GetTree.GetTree | internal/server/cas_service.go:125-162 | From every root on which the loop ends: the pages concatenate to the breadth-first order with shared subtrees repeated, all but the last hold 100 Directories and none is empty; an error comes at the first Directory in that order that does not resolve, or at a page that does not go out |
| GetTree.ServeNext | internal/server/cas_service.go:131-154 | One turn of the loop serves the next Directory in breadth-first order, or stops at it |
| Halting.HaltsIff | internal/server/cas_service.go:131-155 | The loop with its error returns ends exactly when, within one more level than there are blobs, the levels end or a Directory does not resolve |
| Halting.LoopsIff | internal/server/cas_service.go:131-155 | It goes on for ever exactly when all that is reachable resolves and something reachable is its own descendant |
| Traversal.CompleteResolves | internal/server/cas_service.go:135-144 | In a store that holds a tree every Directory below the root resolves to its message |
| Traversal.TraversalsAgree | internal/server/cas_service.go:125-162 | From a captured root the walk ends within the height of the tree, and serves as a multiset the root and the descendants that the Tree blob lists |
| Traversal.TreeBlobReadsBack | internal/casfs/casfs.go:107-120 | The Tree blob of a captured tree reads back as its root and descendants |
| Traversal.CaptureThenGetTree | internal/server/cas_service.go:125-162 | After a successful CaptureDirectory, GetTree from the root digest ends, fails only if a page does not go out, and sends as a multiset what the stored Tree blob unmarshals to |
| Traversal.GetTreeCanLoop | internal/server/cas_service.go:131-155 | On a stored Directory that lists itself the loop never ends |
| Traversal.LoopingStoreIsWritten | internal/server/cas_service.go:243-252 | One Write to an empty store is committed and leaves such a Directory |
| Outputs.ResultBuilder.AttachStream | cmd/executor-agent/main.go:228-243 | The stream is put and its digest recorded as stdout or stderr, or the put fails |
| Outputs.ResultBuilder.CapturePath | cmd/executor-agent/main.go:184-211 | A missing path is omitted; a symlink, directory or file is captured by its kind |
| Outputs.ResultBuilder.CaptureOutputs | cmd/executor-agent/main.go:181-213 | The result gains all outputs in order; on a reliable store it succeeds exactly when every output can be read and marshalled |
| Outputs.ResultAccounts | cmd/executor-agent/main.go:181-226 | The result lists an output exactly when it was found at one of the paths, by its kind and with its digests, and a file as executable exactly when one of its x bits is set |
| Outputs.ResultInOrder | cmd/executor-agent/main.go:181-226 | The outputs of each kind are listed in the order their paths were given, as often as they were |
| Outputs.OutputPaths | cmd/executor-agent/main.go:215-226 | A path counts exactly when it is in output_paths, or in one of the two older fields if there are no output_paths |
| Outputs.ResultResolves | cmd/executor-agent/main.go:169-243 | Both streams, every file, every tree and every Tree blob of a finished result are in the store |
| Outputs.ReportedResultResolves | cmd/executor-agent/main.go:169-243 | Every digest in a returned result yields what was on disk, with everything below it; a run cut short leaves every Directory it put complete |
| ResourceNames.ReadResource | internal/server/cas_service.go:271-283 | The digest after the first "blobs" with two segments behind it, unless "compressed-blobs" comes first; whatever parses passes Validate |
| ResourceNames.WriteResource | internal/server/cas_service.go:285-294 | The digest after the first "uploads" with "blobs" two segments on; whatever parses passes Validate |
| ResourceNames.DigestFrom | internal/server/cas_service.go:296-306 | The hash as given and the size parsed, exactly when the size parses and the digest passes Validate |
| ResourceNames.ReadMeansOne | internal/server/cas_service.go:274-282 | What a read name means is determined |
| ResourceNames.ReadRoundTrip | internal/server/cas_service.go:271-283 | instance/blobs/Key(d), with anything behind it, parses to d for every instance name without a reserved segment |
| ResourceNames.WriteRoundTrip | internal/server/cas_service.go:285-294 | instance/uploads/uuid/blobs/Key(d), with anything behind it, parses to d for every slash-free uuid |
| ResourceNames.UploadNamesCanBeRead | internal/server/cas_service.go:271-294 | The name of an upload also parses as a read name, to the same digest |
| ResourceNames.NamesInOctets | internal/server/cas_service.go:271-294 | The names spelled out: blobs/{key} and uploads/{uuid}/blobs/{key} |
| ResourceNames.CompressedIsRefused | internal/server/cas_service.go:274-277 | A read name with compressed-blobs before any blobs is refused as compressed |
| ByteRange.HeaderParses | internal/cas/cas.go:191-199 | For every offset and limit the header, read by section 14.1.2 of RFC 9110, asks for the range that was meant, and is no range when the offset is negative or the end overflows |
| ByteRange.HeaderInOctets | internal/cas/cas.go:191-199 | The header spelled out: bytes={first}-, and the last position if there is a limit |
| ByteRange.ServedIsSlice | internal/cas/cas.go:188-199 | From an object S3 serves the slice exactly when the read starts inside it or asks for all of it and its end does not overflow; at or past the end it answers 416 where the slice is empty |
| ByteRange.RangedReadsAgree | internal/cas/cas.go:104-123 | For every store, digest, offset and limit: the two readers agree exactly when the blob is absent, or it is the empty blob and the offset is not negative, or the read is inside the blob |
| ByteRange.NegativeOffset | internal/cas/cas.go:104-123 | At a negative offset MemStore panics on every blob it has, and S3 sends the empty blob, and all of any other if there is no limit |
| ByteRange.PastTheEnd | internal/cas/cas.go:191-199 | A one-octet object read from offset 1: the two stores differ |
| ByteStream.Write | internal/server/cas_service.go:200-253 | The verdict on the messages; the store gains the payload exactly when the write is accepted, also if the reply then fails to go out, and is untouched otherwise |
| ByteStream.GatherMeans | internal/server/cas_service.go:218-241 | The loop gathers the payloads up to the first finish or the end of the stream, if each starts where those before it stop |
| ByteStream.CommittedMeans | internal/server/cas_service.go:218-245 | A write commits exactly when its name parses, its messages are contiguous and finished, and their payloads have the declared size; it fails to receive exactly when the stream breaks before that shows; the rest is an invalid argument |
| ByteStream.AnyHashIsTaken | internal/server/cas_service.go:243-252 | A single message with any payload under any valid hash is committed and stored there |
| ByteStream.SendChunks | internal/server/cas_service.go:180-194 | Whatever the sizes of the reads, the chunks are not empty, hold at most 1 MiB, and concatenate to the data |
| ByteStream.Read | internal/server/cas_service.go:167-195 | The range of the named blob in well-formed chunks, or the error its name, its absence or its offset calls for |
| ByteStream.CommittedIsFound | internal/server/cas_service.go:243-252 | What a write committed is found under its digest after any puts to other keys |
| ByteStream.WriteThenRead | internal/server/cas_service.go:167-253 | A client that writes, in any chunking, and one that reads a range later get the same octets |
| ByteStream.QueryWriteStatus | internal/server/cas_service.go:256-269 | Complete with the declared size exactly when the blob is present |
| ByteStream.CommittedIsComplete | internal/server/cas_service.go:252-269 | A committed write is reported complete with the committed size |
| Integrity.HonestMeans | internal/server/cas_service.go:89-97 | The checks of putOne accept exactly the digest that FromBytes computes |
| Integrity.PutOne | internal/server/cas_service.go:88-102 | An honest blob is put; any other request is refused and changes nothing |
| Integrity.BatchUpdateBlobs | internal/server/cas_service.go:76-86 | One response per request, in order, and the store after exactly the accepted ones |
| Integrity.UpdateThenRead | internal/server/cas_service.go:75-122 | Every blob a batch accepted reads back as it was sent |
| Integrity.BatchReadBlobs | internal/server/cas_service.go:105-122 | One response per digest, in order: no octets for the empty blob, the stored data, or NotFound exactly when the blob is absent |
| Integrity.ChangeKeepsIntegrity | internal/server/cas_service.go:88-102 | putOne and every put of capture keep each blob under its own hash; a Write keeps it exactly when its payload hashes to the declared digest |
| Integrity.AnyHashIsTaken | internal/server/cas_service.go:243-252 | A non-empty payload written under another hash than its own is committed and ends integrity |
| Integrity.UpperCaseIsLost | internal/digest/digest.go:42-57 | A hash with an upper-case digit is accepted, and what is written under it is where FromBytes never leads |
| Integrity.RunKeepsIntegrity | internal/server/cas_service.go:243-249 | So does any sequence of them whose writes are truthful |
| Integrity.IntegrityMeans | internal/cas/memstore.go:41-54 | With integrity a lookup never yields data with another hash than was asked for |
| Integrity.PutIsFound | internal/cas/memstore.go:41-81 | A blob that was put is found, as it was, after any truthful changes |
| Integrity.HashAloneRefines | internal/cas/cas.go:10-11 | After the same puts the store keyed by hash holds what one keyed by hash and size holds |
| Integrity.RefinedLookup | internal/cas/cas.go:10-11 | It answers every lookup the finer store answers, and beyond that only those with the right hash and the wrong size |
| FindMissing.ReplyIsTruthful | internal/server/cas_service.go:31-73 | In every interleaving with puts, what a reply leaves out is present when it is made, what it includes was absent at some moment of the call, order and duplicates kept, and nil entries are dropped; a failure is the error of a check |
| FindMissing.QuietReplyIsTheFilter | internal/server/cas_service.go:66-72 | With no puts beside it the reply is exactly the absent digests, in order, with duplicates |
| FindMissing.AtMost32InFlight | internal/server/cas_service.go:35-46 | At most 32 checks are ever in flight |
| FindMissing.NeverStuck | internal/server/cas_service.go:41-61 | Until it has replied some step of the call can be taken, whether the semaphore is full or the wait group is waiting |
| FindMissing.CallEnds | internal/server/cas_service.go:31-73 | A call on n digests takes at most 7n + 1 steps and has replied exactly when it has taken them all |
| Operations.OpEntry.Publish | internal/server/operations.go:33-43 | The update becomes the latest, its channel is closed and replaced; on a done entry nothing happens |
| Operations.OpEntry.Snapshot | internal/server/operations.go:27-31 | The latest update, whether it is terminal, and the current channel |
| Operations.OperationManager.New | internal/server/operations.go:56-65 | A fresh entry is registered under the new name |
| Operations.OperationManager.Lookup | internal/server/operations.go:67-72 | The entry of a registered name |
| Operations.OperationManager.Delete | internal/server/operations.go:123-131 | The name goes, the entry stays for those who hold it |
| Operations.StepKeepsInv | internal/server/operations.go:33-43 | Every step keeps: done holds exactly when the latest update is terminal, only the last update is, each replaced channel was closed once and the current one is open, and every waiter is where its history says |
| Operations.RunKeepsInv | internal/server/operations.go:15-95 | Every run from the empty manager keeps that invariant |
| Operations.DoneIsFinal | internal/server/operations.go:36-38 | No step changes an entry that is done |
| Operations.NoLostWakeup | internal/server/operations.go:76-95 | A waiter blocked on a done entry holds a closed channel |
| Operations.EveryWaiterObservesTheEnd | internal/server/operations.go:15-18 | Once the entry is done, whatever else happens, a waiter whose client stays is never stuck, takes at most four more steps in at most one more turn, and then has returned the terminal update |
| Operations.StreamReport | internal/server/operations.go:76-95 | In every reachable state a stream has sent a repeat-free subsequence of the updates in at most one turn more than there were updates, and has returned nil exactly when the terminal one was the last it sent |
| Streaming.Stream | internal/server/operations.go:76-95 | The loop on real channels, with updates published between any two of its steps, sends a subsequence without repeats and succeeds exactly when it has sent the terminal update |
| Streaming.Select | internal/server/operations.go:89-93 | The select goes on only when the channel it holds is closed, and then something new was published |
| MicroVm.Run | internal/microvm/executor.go:100-170 | Its calls keep to the lifecycle: one launch at most, then only calls for that machine, one dispatch at most, of the given Command, input root and timeout, and one terminate, last. It reports what the last call before the terminate answered: a result exactly if the agent replied it, and otherwise the error of that call; it stops waiting only when the time is over or the context cancelled |
| MicroVm.WaitRunning | internal/microvm/executor.go:208-230 | It succeeds exactly when a poll saw RUNNING, after at most floor(timeout / 1s) + 2 polls |
| MicroVm.WaitHealthy | internal/microvm/executor.go:232-255 | It succeeds exactly when a check answered, after at most floor(timeout / 1s) + 2 checks |
| MicroVm.LaunchedIsTerminated | internal/microvm/executor.go:123-132 | A launch is the first call of a run, the last is the one terminate of that machine, and every call between is for it |
| MicroVm.LifecycleIsOneMachine | internal/microvm/executor.go:100-170 | The lifecycle allows one launch, one dispatch at most, and exactly one terminate for a machine launched |
| MicroVm.ProtocolIsOneMachine | internal/microvm/executor.go:100-170 | At any moment of a run its calls are none, a failed launch, or one launch and then calls for that machine, with one dispatch at most and nothing after the terminate |
| MicroVm.DispatchIsGuarded | internal/microvm/executor.go:134-169 | A dispatch comes after RUNNING, a token and a healthy answer of the same machine, and the terminate right after it is the last call |
| MicroVm.GoesOnOnlyWithHope | internal/microvm/executor.go:134-255 | It polls again only after an answer that says to wait, and after a failure or the reply it terminates at once |
| MicroVm.PollsWithinLimit | internal/microvm/executor.go:134-255 | In a whole run neither loop exceeds its bound, and a machine launched RUNNING is not polled |
| Execution.ActionServer.RunAction | internal/server/execution.go:73-132 | It answers from the cache exactly when it may and the cache holds the action (a failed read counts as a miss), with what the cache held. Otherwise the Command decides: missing or malformed it is answered without a call; found, the updates are CACHE_CHECK, EXECUTING, COMPLETED, the calls are those of one MicroVM run, given the task of this request, and the response is what that run reported: its result, Canceled or Internal. A clean success that may be cached is written. Every message carries the operation's name and action |
| Execution.ActionServer.FetchCommand | internal/server/execution.go:89-102 | A missing Command is answered FailedPrecondition and a malformed one Internal, with the cache and the cloud untouched; one that is found is dispatched |
| Execution.ActionServer.Conclude | internal/server/execution.go:109-131 | The response is the result, Canceled or Internal; a clean result with exit code 0 of an action that may be cached is written unless the store fails, and nothing else is |
| Execution.AdvanceKeepsShape | internal/server/execution.go:73-132 | Each step of runAction keeps its trace in shape |
| Execution.RunEnds | internal/server/execution.go:73-132 | runAction takes at most seven steps |
| Execution.FinishedRun | internal/server/execution.go:73-156 | A finished run has published CACHE_CHECK, perhaps EXECUTING, and one COMPLETED, after at most one dispatch and with its one machine gone before that; a response from the cache made no calls |
| Execution.FinishedIsTraced | internal/server/execution.go:73-132 | Every finished run of the state machine, from its inputs alone: what it published, called and wrote, and its response |
| Execution.FetchAction | internal/server/execution.go:57-69 | It returns an Action exactly if the blob is there and decodes to it, and tells a missing blob from a malformed one |
| Execution.AdmittedMeans | internal/server/execution.go:25-38 | A request is admitted exactly if execution is enabled, its digest valid, and the Action stored and decodable, and otherwise refused for the first of these that fails |
| Execution.Execute | internal/server/execution.go:25-46 | A refused request changes nothing; an admitted one leaves under its name an entry whose messages are about it and tell its whole run, what was dispatched is its task, and the cache answers or gains as RunAction says |
| Server.StepKeepsInv | internal/server/execution.go:73-132 | Every step of any run, client or outside writer keeps runs, entries, cache and history of writes in agreement |
| Server.CachePolicy | internal/server/execution.go:77-125 | Over all interleavings: a cached response is the last value written for its action before the lookup and made no calls; do_not_cache and skip_cache_lookup never look up; a run writes only its own success with exit code 0, for an action that may be cached |
| Server.EveryStreamSeesProgress | internal/server/operations.go:76-95 | Every stream sees the stages of its operation rise, and one that has returned was given the response of its finished run, after the machine was gone |
| Server.DispatchedAtMostOnce | internal/server/execution.go:109-117 | In every reachable state of the server, also between two calls of a MicroVM run, the calls of a runAction are none or those of one machine, with at most one dispatch; once the MicroVM run is over they end with its one terminate |
| Delivery.EveryResponseIsDelivered | internal/server/execution.go:73-132 | From any reachable state, in every interleaving, a waiter whose client stays and the run it waits for take at most 2 * limit + 24 steps together, where limit bounds a waiting loop and calls to the cloud count; until the waiter has returned one of the two can go on; then it was given the response of the finished run |
| Answers.EveryRunIsTold | internal/server/execution.go:73-132 | In every interleaving a finished run whose Command was found has published EXECUTING and answers what one whole MicroVM run reported, and any other has called nothing and answers the cache or the want of a Command |
| Answers.JoinedHearsItsOperation | internal/server/operations.go:67-95 | Whoever waits for an operation by name, by WaitExecution or WaitOperation, is only ever sent messages of that name and is given the response of a run of that name |
| Answers.ExecutedHearsItsRun | internal/server/execution.go:40-46 | The stream of Execute is only ever sent messages of the operation made for its request and is given the response of the run of that request |
| Answers.CanceledOnlyByRequest | internal/server/operations.go:133-142 | A run answers Canceled only if somebody asked to cancel the operation of its name |
| Answers.CancelReachesItsRun | internal/server/operations.go:133-142 | A cancel request ends the context of the run of that name, for good |
| Answers.DeletedIsGone | internal/server/operations.go:123-131 | A deleted operation cannot be waited for, cancelled or deleted again unless its name is given anew |

## Left out

- S3, the MicroVM SDK, HTTP, JSON and gRPC: only the calls of the MicroVM lifecycle and the semantics of the store are kept.
- Failing reads of the store, which end a call with an error and change nothing; failing puts are in (a store that is not `reliable`).
- Files that change or cannot be read while they are captured, devices and fifos, the umask, permission bits other than the executable ones, and the two stream files that lie among the outputs.
- Materialize.Materialize: does not cover a destination that is not vacant, or a Directory message that repeats a name. No capture makes one, but Write and BatchUpdateBlobs can store one, and then a file may be written outside the destination: symlinks come before subdirectories, so a subdirectory with the name of a symlink to a directory is written where that points, and so is a file of the second of two subdirectories of one name if the first had a symlink there.
- Materialize.WriteFiles: does not cover names that repeat or are taken, for the same reason.
- Materialize.WriteSymlinks: does not cover names that repeat or are taken, for the same reason.
- Materialize.WriteDirectories: does not cover names that repeat or are taken, for the same reason.
- GetTree.GetTree: the store does not change while the call walks it, and neither does the one of which `Halting.dfy` speaks.
- Integrity.BatchUpdateBlobs: nobody else writes to the store during the call.
- Capture.BuildDirectory: nobody else writes to the store during the call; `Capture.CompleteAmongOthers` is about other writers.
- Execution.Execute: does not interleave the goroutine it starts with the stream to its caller; `Server.dfy` does.
- Materialize.FileSystem.MkdirAll: the parent exists, as it does for every call Materialize makes but perhaps the first.
- The copies that Get and Put make and the buffer that Read reuses: sequences are values, so aliasing is not modelled.
- Keeping unknown protobuf fields (they are only skipped), deprecated wire types, the refusal of varints over ten octets and of field numbers over 2^29 - 1, and the Command, Action and ActionResult messages, which stand as values behind a decoding function.
- Blobs of 2^63 octets or more in Write; FromBytes does wrap their size.
- The generation of UUIDs: a new operation gets a name that is not in use.
- GetOperation, ListOperations, GetCapabilities, the GetActionResult handler: they only read.
- The command's process: exit codes, timeouts, environment and timestamps are given.
- The text of error messages.
