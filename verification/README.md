# rust-imager in Dafny

rust-imager images the SD card or eMMC of a single-board computer: it shrinks the root
filesystem and its partition in place, streams the used range through a compressor, verifies
the result, describes it in a sidecar, and can later flash such an image back. This project
models the logic of that program and proves what its parts promise each other. `dafny verify
dfyconfig.toml` checks all of it.

## What is modelled

**The shrink and layout chain.** `Mbr` parses sector zero (UEFI Specification 2.10, section
5.2.1; protective type 0xEE of section 5.2.3, GPT header signature of section 5.3.2) with the
entry loop, the sort and the neighbour test of the program. `MbrLaws` relates the parser to raw
slots, to an encoder and to a rewritten length. `Plan` is the checked u64 arithmetic against
unbounded-integer reference definitions. `Preparation` chooses the root, classifies the layout
and collects what the destructive part is told. `Shrink` is the check after shrinking.
`Transaction` runs the ten stages on a medium of bytes, with every way an external tool can
fail as a parameter. `ShrinkSafety` proves the medium safe at every failure point, and that
planner, tools and validator agree.

**The streaming pipeline.** `Extract` is the reader thread, the bounded channel and the consumer
as a step relation: any interleaving, any short read, any failure, including a dropped receiver.
`Streams`, `Verify` and `Flash` are the decode, hash and write loops over arrays, with readers
and devices that may deliver or take less than asked for. `SelfAcceptance` closes the circle:
whatever the tool images, its own flasher accepts, and flashing it restores the imaged bytes.
`Imaging` is the whole run with its files, its log and its trace of visible effects. `Example`
runs it on one concrete stick, to success.

**Smaller state machines.** `GrowRoot` is the first-boot script under power losses between and
inside commands. `Quiescence` unmounts a disk deepest first. `Discovery` filters a forest of
block devices. `Model` and `Wizard` are the reducer and the key loop with its confirmation gate.

`Basics`, `Text`, `Paths`, `Sorting` and `Tools` hold machine integers, string and path
operations, sorting, and the opaque digest and codecs. A hash state is a function of the bytes
fed so far; `Tools.Lossless` is the one hypothesis on codecs (decoding an encoding gives the joined
chunks) and is named wherever it is needed.

## Where the code falls short

- `discovery.rs:172-177` remembers only the last disk that holds a path. With a device that
  appears under two disks (a mirror), the earlier disk is offered although it is in use:
  `Discovery.SharedPathIsOffered`. `Discovery.SafeExactly` gives the exact condition.
- `plan.rs:159-170` lets the partition end past the image when the sector size does not divide
  the alignment: `Plan.UnalignedEndPassesImage`. That divisibility is the exact condition:
  `Plan.ConfigurationEndsWithImageExactly`. The only production call uses 512 bytes and 1 MiB.
- `plan.rs:147-170` plans a root that ends before it starts when the filesystem is empty and its
  start aligned, and only then: `Plan.EmptyRootEndsEarly`, `Plan.RootIsNonEmptyExactly`.
- `app.rs:226-235` writes the log's last line only after everything else, and returns when that
  fails. A run can perform all ten stages and leave a log that does not say that the source was
  modified: `Example.ImageWithoutLog`. `Imaging.RunImage` gives the exact condition.
- `mbr.rs:117-120` can never report `GeometryOverflow`: `MbrLaws.ParseAcceptsExactly`.

## Model

| member | source | states |
|---|---|---|
| Mbr.ParseMbr | crates/rust-imager-core/src/mbr.rs:82-145 | The entry loop, the sort by start and the neighbour test together compute the partitions of the non-blank slots when no slot is at fault and **all** pairs are disjoint, and otherwise the first complaint in the order signature, GPT header, slot faults, overlap |
| Mbr.ReadEntries | crates/rust-imager-core/src/mbr.rs:95-132 | The entry loop collects the non-blank slots in table order, or returns the fault of the first bad slot |
| Mbr.AdjacentIffPairwise | crates/rust-imager-core/src/mbr.rs:134-142 | For any permutation sorted by start, no two neighbours overlap exactly when no two partitions of the original list overlap |
| Mbr.CollectedInBounds | crates/rust-imager-core/src/mbr.rs:100-130 | Accepted partitions lie in `[1, total)`, have `end = start + sectors - 1`, supported types and strictly increasing numbers |
| MbrLaws.ParseAcceptsExactly | crates/rust-imager-core/src/mbr.rs:82-145 | Parsing succeeds exactly when the signature is there, LBA 1 is no GPT header, every non-blank raw slot describes a supported partition inside the device and the raw slots are pairwise apart; the `GeometryOverflow` error can never come out, because two 32-bit quantities fit a u64 |
| MbrLaws.ParsedFromBytes | crates/rust-imager-core/src/mbr.rs:95-132 | Every parsed partition has the boot flag, type, start and length of the bytes of its slot, slot by slot from byte 446, and the kind of its type code |
| MbrLaws.RefusalMeans | crates/rust-imager-core/src/mbr.rs:87-142 | Each error names something true of the bytes, the signature is looked at first and the GPT header next, and overlap is reported only of supported partitions |
| MbrLaws.ParsedIsValid | crates/rust-imager-core/src/mbr.rs:94-144 | Whatever parses is ascending in number, pairwise disjoint, in bounds and at most four entries long |
| MbrLaws.BoundOnlyLimitsEnds | crates/rust-imager-core/src/mbr.rs:117-123 | A table accepted for one sector count parses to the same list for another count exactly when every end is below that count |
| MbrLaws.EncodeParseRoundTrip | crates/rust-imager-core/src/mbr.rs:82-145 | Encoding any valid list of partitions little-endian from offset 446 and parsing the sector gives back exactly that list, unless LBA 1 is a GPT header, which is then what is reported |
| MbrLaws.RewrittenSlots | crates/rust-imager-linux/src/tools.rs:70-95 | Replacing the four length bytes of one slot changes the decoded slots only there, and not the signature |
| MbrLaws.RewriteParse | crates/rust-imager-linux/src/tools.rs:70-95 | Rewriting one partition's length and parsing again succeeds exactly when the new end is inside the device and clear of every other partition, and then changes exactly that partition's end and length |
| Plan.BuildPlanSucceedsExactly | crates/rust-imager-core/src/plan.rs:130-189 | `build_plan` succeeds exactly when the output is local and the size, capacity, space and u64 conditions hold over unbounded integers; its fields are then the unbounded-integer ones |
| Plan.RefusedExactly | crates/rust-imager-core/src/plan.rs:131-165 | Which refusal comes out: a remote output before all else, then a minimum above the current size; lack of space exactly when the image exists and fits the device but not the output |
| Plan.MarginMeans | crates/rust-imager-core/src/plan.rs:141-151 | The margin is five percent of the minimum but at least 256 MiB, and the target is minimum plus margin or the current size, whichever is less |
| Plan.PlanCoversTarget | crates/rust-imager-core/src/plan.rs:152-189 | The image is the least alignment multiple covering start plus target, fits the device, the sectors up to the planned end hold the target, and the end's last byte is the image's when the sector size divides the alignment |
| Plan.AlignUpMeaning | crates/rust-imager-core/src/plan.rs:191-200 | `align_up` is the least multiple not below its value, or an overflow when that multiple is no u64 |
| Plan.UnalignedEndPassesImage | crates/rust-imager-core/src/plan.rs:159-170 | A concrete input (768-byte sectors, 1024-byte alignment) whose partition ends past the image |
| Plan.EndMatchesImageExactly | crates/rust-imager-core/src/plan.rs:159-170 | One plan ends with its image exactly when the sector size divides that image's length |
| Plan.ConfigurationEndsWithImageExactly | crates/rust-imager-core/src/plan.rs:159-170 | Every plan with a given sector size and alignment ends with its image exactly when the sector size divides the alignment, or the two are so large that there is no plan |
| Plan.RootIsNonEmptyExactly | crates/rust-imager-core/src/plan.rs:147-170 | The planned end is not before the planned start exactly when the filesystem is not empty or its start is unaligned |
| Plan.EmptyRootEndsEarly | crates/rust-imager-core/src/plan.rs:147-170 | A concrete input (no filesystem, start at 1 MiB) whose planned root ends before it starts |
| Plan.ResizedSizeAccepted | crates/rust-imager-core/src/plan.rs:141-151 | Through the 5% margin, the KiB truncation and the rounding of `resize2fs` to blocks, the resized size stays between the e2fsprogs minimum and the target and within one block of the KiB asked for, which is what the post-shrink check demands |
| Preparation.LastByEnd | crates/rust-imager-cli/src/app.rs:317-321 | The root chosen is a partition of the list with the greatest end |
| Preparation.RootIsLast | crates/rust-imager-cli/src/app.rs:317-321 | In a parsed table every other partition ends before the chosen root starts |
| Preparation.AcceptedLayoutHasLinuxRoot | crates/rust-imager-core/src/profile.rs:30-64 | A layout that is not unsupported has, as the very partition `prepare` shrinks, a Linux partition with ext4 evidence that looks like a root |
| Preparation.ClassifiedExactly | crates/rust-imager-core/src/profile.rs:30-64 | A layout is accepted exactly when the last partition is Linux and its first evidence is an ext4 directory with etc, usr and var; it is a Raspberry Pi or an Odroid exactly by the boot files of the first FAT partition |
| Preparation.PrepareSucceedsExactly | crates/rust-imager-cli/src/app.rs:294-380 | Preparation succeeds exactly on a device listed twice over with 512-byte sectors and the typed model, a table that parses, an accepted layout, usable geometry, a local output with known space and a plan; and it warns exactly of an unknown layout |
| Preparation.ParseExt4Geometry | crates/rust-imager-linux/src/inspect.rs:73-91 | Geometry comes out exactly when the three numbers are there and both products fit a u64; it is the two products and the block size |
| ShrinkSafety.PreparedMeans | crates/rust-imager-cli/src/app.rs:294-380 | What success of `prepare` establishes: sector size 512, the parsed table, the chosen root, the plan built from the numbers read, the sidecar partitions |
| ShrinkSafety.PlanOnTable | crates/rust-imager-cli/src/app.rs:316-367 | Plan, table and device agree: the planned end closes the image on a sector, lies behind the root's start and inside the device, clear of every other partition |
| Shrink.ValidatePostShrink | crates/rust-imager-linux/src/shrink.rs:200-268 | The check with its loop over the original entries computes its specification, complaint by complaint in order |
| Shrink.ValidationIsExact | crates/rust-imager-linux/src/shrink.rs:208-268 | On two parsed tables the check succeeds exactly when the changed list is the original in order with only the root's end and length replaced by the planned ones, and the filesystem has the asked size within one block and fits |
| Shrink.AscendingSublist | crates/rust-imager-linux/src/shrink.rs:219-239 | Strictly increasing numbers, equal counts and every entry found again make two lists equal position by position |
| Shrink.TableExact | crates/rust-imager-linux/src/shrink.rs:208-250 | The per-entry comparisons and the count hold exactly when the whole list is the planned one |
| Shrink.RootExact | crates/rust-imager-linux/src/shrink.rs:240-267 | The checks on the root and the sizes hold exactly when the root moved as planned and the geometry fits |
| Transaction.LinuxShrinkBackend.Perform | crates/rust-imager-linux/src/shrink.rs:129-192 | One stage changes the medium and answers as specified, for every behaviour of the external tool, and never answers Ok for a tool that failed |
| Transaction.AnswerMeans | crates/rust-imager-linux/src/shrink.rs:130-192 | Ok is never the answer to a failed tool, and before the last stage it is the answer to every tool that worked, a length that cannot be stored apart |
| Transaction.AttemptedInOrder | crates/rust-imager-linux/src/shrink.rs:63-74 | Boot files go onto an unmounted, checked root; it is shrunk only when unmounted and checked again, cut only when shrunk and checked, and validated only when cut and reread |
| ShrinkSafety.WrittenKeeps | crates/rust-imager-linux/src/shrink.rs:134-157 | Whatever unmounting, checking and installing write behind the table's sector, the invariant of the transaction survives |
| Transaction.ExecuteShrink | crates/rust-imager-linux/src/shrink.rs:103-113 | The stages attempted are a prefix of the ten in order, the medium is what those stages make of it, the tool of every stage before the last attempted one succeeded, on Ok those of all ten, and an error is the answer of the last one attempted |
| ShrinkSafety.StageKeepsInvariant | crates/rust-imager-linux/src/shrink.rs:129-192 | One stage, however its tool ends, keeps the invariant, provided the table is touched only once the filesystem is small |
| ShrinkSafety.EveryStageIsSafe | crates/rust-imager-linux/src/shrink.rs:63-113 | At every failure point the filesystem fits both the table's and the kernel's root partition, is no smaller than its minimum, and the table is the original one or differs only in the root's planned end |
| ShrinkSafety.PartitionFirstIsSafeExactly | crates/rust-imager-linux/src/shrink.rs:158-170 | Writing the planned partition before shrinking would be safe exactly when the filesystem already fits the planned length |
| ShrinkSafety.PreparedJobIsSound | crates/rust-imager-cli/src/app.rs:419-429 | The request `execute` builds from `prepare` satisfies what the safety proof needs |
| ShrinkSafety.SuccessAppliesPlan | crates/rust-imager-linux/src/shrink.rs:63-113 | When all ten stages pass, parsing the medium under the device's bound gives the original list with the planned root end, the filesystem has the resized size and the kernel believes the planned length |
| ShrinkSafety.AcceptedIsPlanned | crates/rust-imager-linux/src/shrink.rs:175-189 | Whatever the medium was before, what the last stage accepts parses to the original list with the planned root end, and that end is not before the start |
| ShrinkSafety.HonestToolsSucceed | crates/rust-imager-linux/src/shrink.rs:129-268 | Planner, tools and validator agree: if every tool works, all ten stages pass exactly when the length fits 32 bits and LBA 1 is no GPT header |
| Extract.StepKeepsInvariant | crates/rust-imager-pipeline/src/extract.rs:101-247 | Every step of reader, channel and consumer keeps the invariant: bounded queue, bytes in flight a prefix of the source, an honest Done last |
| Extract.EveryRun | crates/rust-imager-pipeline/src/extract.rs:101-247 | For every interleaving, short read and failure: runs are no longer than a bound known at the start, a run that cannot go on has finished, encoded ++ held ++ queued ++ pending bytes are a prefix of the source, and an Ok result means exactly the requested bytes were encoded, hashed and named |
| Extract.NeverDeadlocked | crates/rust-imager-pipeline/src/extract.rs:107-127 | In every reachable state that is not finished some thread can move, also when the reader blocks on a full queue or the receiver is gone |
| Extract.StepsDecrease | crates/rust-imager-pipeline/src/extract.rs:172-247 | Every step decreases a natural-number measure |
| Extract.MemoryIsBounded | crates/rust-imager-pipeline/src/extract.rs:184-214 | The queue never exceeds `queue_depth` and the bytes outside the encoder never exceed `(queue_depth + 2) * buffer_bytes`; the product behind `queued_input_capacity` is a u64 |
| Extract.RunKeepsInvariant | crates/rust-imager-pipeline/src/extract.rs:101-247 | The invariant holds after any run, whose length is bounded by the initial measure |
| Extract.DroppedStaysDropped | crates/rust-imager-pipeline/src/extract.rs:196-214 | Once the receiver is gone nothing is queued or received any more |
| Extract.FailedSendIsNeverAnswered | crates/rust-imager-pipeline/src/extract.rs:196-214 | The Done a reader says after a failed send is never received, in any continuation of any run |
| Extract.CleanRunSucceeds | crates/rust-imager-pipeline/src/extract.rs:101-170 | If no step fails, the run can only end in the Ok result for the whole range, and until then can go on |
| Extract.ExtractPath | crates/rust-imager-pipeline/src/extract.rs:101-170 | Under any schedule: Ok only with a level the encoder has and the final name holding the encoding of exactly the requested prefix, with its byte count and hash; invalid options and existing outputs are refused first; Ok always when the whole range exists, the names are free and no step fails; and without a failing step the only errors are an early end of the source, with what was read, and a level the encoder has not |
| Streams.HashReader | crates/rust-imager-pipeline/src/verify.rs:184-216 | For every chunking, count and digest are those of the whole stream, or of its prefix up to the limit |
| Verify.VerifyImage | crates/rust-imager-pipeline/src/verify.rs:68-122 | The result is the verdict on the decoded bytes and the source, or an I/O failure that some stream really had |
| Verify.VerdictTells | crates/rust-imager-pipeline/src/verify.rs:68-122 | What each level claims for itself, and what each refusal means |
| Verify.PassedMeansSameBytes | crates/rust-imager-pipeline/src/verify.rs:86-121 | At Decode and SourceReread, with the hash taken while extracting, verification passes exactly when the image decodes to the extracted bytes and the source, when reread, still starts with them (digests told apart by hypothesis) |
| Flash.DecodeAll | crates/rust-imager-pipeline/src/flash.rs:149-176 | The first-1024-byte window, count and digest depend only on the decoded bytes, not on how reads split them |
| Flash.InspectionAcceptsExactly | crates/rust-imager-pipeline/src/flash.rs:118-226 | An image is accepted exactly when its table can be read, where one is asked for, and everything its sidecar says is true: format, length, at Full both hashes, and the partitions of the table one by one |
| Flash.LayoutMatchesExactly | crates/rust-imager-pipeline/src/flash.rs:202-219 | Sidecar and table match exactly when the sidecar lists number, type, start and end of every partition in order |
| Flash.InspectImage | crates/rust-imager-pipeline/src/flash.rs:118-226 | The result is the inspection of file bytes, decoded bytes and sidecar, or an I/O failure some stream really had; an accepted image has the format, length and, at Full, the hashes its sidecar names, a readable table behind no GPT header, and the partitions the sidecar lists |
| Flash.InspectedIsAcceptable | crates/rust-imager-pipeline/src/flash.rs:237-289 | Flashing the same file with the inspected facts is never refused for size or stream hash |
| Flash.Target.WriteAll | crates/rust-imager-pipeline/src/flash.rs:266-268 | A write puts some first part of the buffer at the position, all of it on success, and touches nothing else |
| Flash.Stream | crates/rust-imager-pipeline/src/flash.rs:249-271 | The write loop leaves the target a prefix of the decoded image never longer than expected, followed by its old contents, and ends cleanly only after the whole stream |
| Flash.FlashImage | crates/rust-imager-pipeline/src/flash.rs:233-305 | A target that is too small is refused before anything is written; every exit leaves a prefix of the decoded image of some length k <= `expected_raw_bytes` followed by the untouched old contents; success means k is that number, the target was synced and the reported hash is of exactly those bytes, and after a full post-verify also of the first k bytes read back from the target; working devices and acceptable facts mean success |
| SelfAcceptance.ShrunkParses | crates/rust-imager-linux/src/shrink.rs:175-189 | When all ten stages passed, the source parses to the planned table for every sector count above the planned root end, the image's own count included, even if it changed since it was prepared |
| SelfAcceptance.EndsBeforeRoot | crates/rust-imager-cli/src/app.rs:316-367 | Because the root is last, every end of the planned table lies inside the imaged sectors |
| SelfAcceptance.SidecarDescribesTable | crates/rust-imager-cli/src/app.rs:354-367 | The sidecar partitions match the planned table position by position |
| SelfAcceptance.OwnImagesAreAccepted | crates/rust-imager-pipeline/src/flash.rs:118-226 | The image of a completed run, with its sidecar and the matching format, passes inspection at every level, and the table reported is the planned one |
| SelfAcceptance.CompletedIsAccepted | crates/rust-imager-pipeline/src/flash.rs:118-289 | At every level a completed run passes inspection, and on every target large enough the inspected length and hash are then accepted for flashing, at every post-verify level |
| SelfAcceptance.FlashedTargetIsTheSource | crates/rust-imager-pipeline/src/flash.rs:233-305 | Imaging then flashing is the identity: the target's prefix equals the source prefix that was extracted, and its table under its own size is the planned one |
| SelfAcceptance.InspectOwnImage | crates/rust-imager-pipeline/src/flash.rs:118-226 | Inspecting a completed run's image gives, at every level and for every chunking, its length, its hash and the planned table |
| SelfAcceptance.FlashOwnImage | crates/rust-imager-pipeline/src/flash.rs:118-305 | Inspecting a completed run's image at any level and flashing it with what was found succeeds on every working, large enough target, for every chunking, and leaves the extracted source bytes followed by the untouched old contents |
| Example.CompletedRunExists | crates/rust-imager-cli/src/app.rs:407-491 | The hypotheses of the theorems above are not empty: a concrete stick is prepared, passes all ten stages and has a completed run |
| Imaging.ExtractImage | crates/rust-imager-cli/src/app.rs:441-457 | The image's name appears only with the encoding of the whole planned range behind it, and never over an existing file; the counts and hashes returned describe range and file; when nothing fails it succeeds |
| Imaging.RangeVerifies | crates/rust-imager-pipeline/src/verify.rs:86-121 | With a lossless codec the encoded range passes every level, given the hash extraction returned |
| Imaging.VerifyOutput | crates/rust-imager-cli/src/app.rs:459-467 | Asked for the hash extraction returned, Ok means the level's verdict on the decoded file and the source, and Ok comes out when file and source can be read and the codec is lossless |
| Imaging.WriteSidecar | crates/rust-imager-pipeline/src/verify.rs:130-150 | The sidecar's name appears only complete and never over an existing file; Ok exactly when both names are free and every step works |
| Imaging.CaptureImage | crates/rust-imager-cli/src/app.rs:441-491 | Image name, verification and sidecar name happen in this order, each only after the one before, with what each of them means, the sidecar holding what extraction and verification returned, and the reported phase fits the milestones; when nothing fails all three happen |
| Imaging.ShrinkSource | crates/rust-imager-cli/src/app.rs:434-440 | The stages attempted enter the trace, the medium is what they make of it, and it succeeds when all ten pass |
| Imaging.Execute | crates/rust-imager-cli/src/app.rs:407-491 | Whatever fails, the trace is a prefix of the stages followed by a prefix of the milestones, milestones only after all ten stages; the source counts as modified exactly when its identity was found again and the mount directory made, before any stage; when nothing fails it succeeds |
| Imaging.OutputConflicting | crates/rust-imager-cli/src/app.rs:279-292 | No conflict is reported exactly when none of the five names is taken, and otherwise the first taken one in order |
| Imaging.Admit | crates/rust-imager-cli/src/app.rs:185-206 | A run is admitted exactly when its level and extension are right, none of the five names is taken and the log takes its first line; nothing that existed changes |
| Imaging.CloseLog | crates/rust-imager-cli/src/app.rs:226-237 | The last line holds outcome, phase and modification when it can be written, and otherwise the log stays as it was; a result is passed on only over a written and synced log |
| Imaging.WorkingToolsPass | crates/rust-imager-cli/src/app.rs:407-440 | On a prepared source whose tools work, all ten stages pass exactly when the planned length fits 32 bits and LBA 1 is no GPT header, and the image fits what they leave |
| Imaging.RunImage | crates/rust-imager-cli/src/app.rs:185-238 | A whole run: ordered trace, nothing overwritten, no stage without a permitted request, a conflict-free output, a successful preparation and an identity found three times; its log says the source was modified exactly when the run got as far as mutating and the last line could be written, and names a phase that fits what was done; a successful run left a sidecar whose every number is true and, with a lossless codec, an image the flasher accepts; and where nothing else fails all milestones are reached exactly when the planned table holds |
| Example.ImageTheStick | crates/rust-imager-cli/src/app.rs:185-238 | The whole run on a concrete stick succeeds, and its flasher accepts the image and sidecar it made |
| Example.ImageWithoutLog | crates/rust-imager-cli/src/app.rs:226-235 | A concrete run that performs all ten stages and returns without its log saying that the source was modified |
| Imaging.PreparedInsists | crates/rust-imager-cli/src/app.rs:294-352 | A preparation that is revalidated was made on an identity that all three discoveries listed, with the typed model and 512-byte sectors |
| Imaging.TouchedDiskIsFree | crates/rust-imager-cli/src/app.rs:294-417 | When the three listings have unique paths, the disk a stage is attempted on is in each of them eligible and at no depth swap or the source of a protected mount |
| Imaging.TraceIsOrdered | crates/rust-imager-cli/src/app.rs:185-238 | In any run's trace all ten stages come before every name, the image's name before the verification and the verification before the sidecar's name |
| Imaging.MilestonesComplete | crates/rust-imager-cli/src/app.rs:441-491 | With a lossless codec, a described image is the completed run the flasher accepts |
| GrowRoot.FillCovers | crates/rust-imager-first-boot/assets/rust-imager-grow-root.sh:59 | Filling a partition keeps whole blocks, never shrinks what fits and leaves less than a block |
| GrowRoot.Board.GrowTable | crates/rust-imager-first-boot/assets/rust-imager-grow-root.sh:52-53 | Until the sync is done a power loss can undo the table write; going on means the table covers the disk |
| GrowRoot.Board.Run | crates/rust-imager-first-boot/assets/rust-imager-grow-root.sh:35-72 | From any phase and under any fault, filesystem <= kernel's partition <= table's partition <= disk is kept and no phase goes back; without faults the phase advances |
| GrowRoot.Board.Remove | crates/rust-imager-first-boot/assets/rust-imager-grow-root.sh:63-66 | The enable link goes before the state file, so an interrupted removal never starts over |
| GrowRoot.Board.Boot | crates/rust-imager-first-boot/assets/rust-imager-grow-root.sh:10-72 | A boot keeps the invariant and never goes back; a disabled service changes nothing |
| GrowRoot.Live | crates/rust-imager-first-boot/assets/rust-imager-grow-root.sh:10-72 | Any number of boots, each interrupted anywhere, keep the invariant and never regress |
| GrowRoot.TwoCleanBoots | crates/rust-imager-first-boot/assets/rust-imager-grow-root.sh:10-72 | After any history two boots without faults leave the filesystem filling the disk and the service disabled |
| Quiescence.PreorderIsForest | crates/rust-imager-linux/src/quiescence.rs:159-164 | The flattened list holds exactly the nodes at any depth of the forest |
| Quiescence.FlattenAll | crates/rust-imager-linux/src/quiescence.rs:74-77 | The recursive pushes produce that list in order |
| Quiescence.Dedup | crates/rust-imager-linux/src/quiescence.rs:114-121 | On the sorted list, dropping equal neighbours leaves every mountpoint exactly once, still in order |
| Quiescence.BeneathComesFirst | crates/rust-imager-linux/src/quiescence.rs:115-119 | Sorted deepest first, whatever lies strictly beneath a mountpoint comes before it |
| Quiescence.CheckUnused | crates/rust-imager-linux/src/quiescence.rs:80-109 | Passes exactly when no node is swap and none has holders; the error names a real one |
| Quiescence.UnmountOrder | crates/rust-imager-linux/src/quiescence.rs:110-121 | Sorting and deduplicating give exactly the mountpoints of the disk, each once, deepest first |
| Quiescence.UnmountAll | crates/rust-imager-linux/src/quiescence.rs:122-124 | Unmounting goes through the list in order up to the first failure |
| Quiescence.QuiesceDisk | crates/rust-imager-linux/src/quiescence.rs:68-134 | Attempts each distinct mountpoint of the whole tree at most once, and all of them on success; never one while another strictly beneath it is pending; none at all if any node is swap or held; on success the tree read again has no mounts; with working unmounts it succeeds exactly then |
| Paths.JoinedIsBeneath | crates/rust-imager-linux/src/quiescence.rs:166-168 | Joining a name to an absolute directory adds one component, so the result lies strictly beneath it |
| Discovery.ContainsSwapAtAnyDepth | crates/rust-imager-linux/src/discovery.rs:148-150 | The recursive test finds swap exactly when some descendant is swap |
| Discovery.IndexChildren | crates/rust-imager-linux/src/discovery.rs:172-177 | Every path of the tree leads to this disk afterwards, every other path where it led before |
| Discovery.IndexForest | crates/rust-imager-linux/src/discovery.rs:99-106 | The index names the last disk that holds a path, and the exclusions are the disks with swap |
| Discovery.ExcludeOwners | crates/rust-imager-linux/src/discovery.rs:108-122 | Excluded are exactly the swap disks and the indexed owners of protected mounts |
| Discovery.DiscoverCandidates | crates/rust-imager-linux/src/discovery.rs:87-146 | Refused exactly for a relative output; otherwise the sorted permutation of the disks that pass name, USB, sector and exclusion filters, each identity with the fields of such a disk |
| Discovery.OutputDiskIsWithheld | crates/rust-imager-linux/src/discovery.rs:108-122 | With unique paths, the disk that holds the source of the mount an output lies in is never offered |
| Discovery.SystemDiskIsWithheld | crates/rust-imager-linux/src/discovery.rs:108-122 | Nor is a disk holding the source of /, /boot or /boot/efi, whatever the output |
| Discovery.OtherMountWithholdsNothing | crates/rust-imager-linux/src/discovery.rs:108-122 | A disk without swap whose mounts are none of these and do not contain the output is not withheld |
| Discovery.UsbDiskIsEligible | crates/rust-imager-linux/src/discovery.rs:124-132 | Every USB disk of 512-byte sectors named sd and lower-case letters passes the filters |
| Paths.LexFirst | crates/rust-imager-linux/src/discovery.rs:144 | The order of the result is the usual one of strings: the first difference decides, and a prefix comes first |
| Discovery.KeptIsFiltered | crates/rust-imager-linux/src/discovery.rs:124-143 | The returned identities are exactly those of the disks that pass the filters |
| Discovery.CandidatesExactly | crates/rust-imager-linux/src/discovery.rs:99-146 | With unique paths a disk is returned exactly when it passes the filters and nothing at any depth beneath it is swap or the source of a protected mount |
| Discovery.SafeExactly | crates/rust-imager-linux/src/discovery.rs:172-177 | The listing is safe for every mount table and output exactly when, for every eligible disk without swap, each path it holds is last held by that disk |
| Discovery.SharedPathIsOffered | crates/rust-imager-linux/src/discovery.rs:172-177 | A concrete forest, a mirror over two sticks mounted at the root, in which the first stick is offered although it is in use |
| Discovery.EarlierHolderIsOffered | crates/rust-imager-linux/src/discovery.rs:172-177 | The same for any two eligible disks sharing a mounted path |
| Model.AppModel.Reduce | crates/rust-imager-tui/src/model.rs:247-327 | Every action changes setup and dashboard exactly as specified and keeps cursor and selection in range, histories within eight entries and progress within its total |
| Model.AppModel.PushEvent | crates/rust-imager-tui/src/model.rs:418-427 | Pushing and popping leaves the last eight events |
| Model.AppModel.Metrics | crates/rust-imager-tui/src/model.rs:358-382 | Bytes and rates are those of the dashboard; progress never exceeds its total; the ETA is the least whole number of seconds that covers the remainder at the greater of the two rates, and is absent exactly when nothing remains or both rates are zero |
| Model.RecentOfPush | crates/rust-imager-tui/src/model.rs:410-427 | Bounding a history at every push keeps what bounding it once at the end would, which is its newest entries |
| Model.RateIsFloor | crates/rust-imager-tui/src/model.rs:495-512 | The rate is the greatest whole one that claims no more bytes than were seen |
| Model.EtaIsLeast | crates/rust-imager-tui/src/model.rs:358-376 | Whole seconds suffice at the rate exactly from the estimate on |
| Model.ReducedStaysInRange | crates/rust-imager-tui/src/model.rs:390-402 | No action takes cursor or selection out of the list |
| Model.CursorMoves | crates/rust-imager-tui/src/model.rs:390-402 | The cursor moves by one and around both ends, and down and up undo each other |
| Model.PreviousUndoesContinue | crates/rust-imager-tui/src/model.rs:429-459 | Going back from where Continue led comes back |
| Model.SelectingForgets | crates/rust-imager-tui/src/model.rs:254-260 | Selecting a device starts its confirmation over |
| Model.DashboardKeeps | crates/rust-imager-tui/src/model.rs:247-327 | An operation starts once; only progress changes the byte counts; reporting extraction again neither restarts its clock nor forgets its samples |
| Model.ScreenFollowsPhase | crates/rust-imager-tui/src/model.rs:281-314 | Every report that begins a phase shows that phase's screen |
| Model.CompletedSuits | crates/rust-imager-tui/src/model.rs:478-492 | An output is only ever extended: to an image of the chosen compression without an extension or with that of a raw image, and not at all with any other |
| Model.CompletedStaysVisible | crates/rust-imager-tui/src/model.rs:478-492 | Completing the extension cannot blank an output |
| Wizard.Press | crates/rust-imager-cli/src/wizard.rs:644-702 | One key does to the model what its specification says, and ends the loop exactly when it should |
| Wizard.EventLoop | crates/rust-imager-cli/src/wizard.rs:644-702 | The loop on any keys ends in the state and with the outcome of the specification run; started fresh, a request it returns is vetted and its plan is the one on show |
| Wizard.EscCancels | crates/rust-imager-cli/src/wizard.rs:659-665 | Esc ends the loop and Left goes back on every screen |
| Wizard.ArrowsMove | crates/rust-imager-cli/src/wizard.rs:667-673 | On the list the arrows and their letters move the cursor and nothing else |
| Wizard.BackspaceUndoes | crates/rust-imager-cli/src/wizard.rs:686-693 | Backspace takes back what was typed |
| Wizard.CompressionKeys | crates/rust-imager-cli/src/wizard.rs:704-713 | F2 chooses Zstandard, F3 Xz, and no other key changes the compression |
| Wizard.LevelKeys | crates/rust-imager-cli/src/wizard.rs:733-742 | The keys 1 to 4 give the four levels, weakest first, and no other key gives one |
| Wizard.ChoosingNames | crates/rust-imager-cli/src/wizard.rs:776-797 | Choosing a device leaves a typed output alone and names an empty one |
| Wizard.ChooseDevice | crates/rust-imager-cli/src/wizard.rs:776-797 | Selection and screen change only to a listed device whose layout was just analysed without error, with an empty confirmation |
| Wizard.HandleOutputKey | crates/rust-imager-cli/src/wizard.rs:704-731 | The output screen is left forwards only with a non-blank completed name that was just looked up and found free |
| Wizard.HandleVerificationKey | crates/rust-imager-cli/src/wizard.rs:733-761 | The review is reached only with the plan just computed from the very request the model stands for |
| Wizard.OutputEnterKeepsGate | crates/rust-imager-cli/src/wizard.rs:716-727 | Enter on the output screen leads on only with a non-blank completed name found free, or stays |
| Wizard.VerificationEnterKeepsGate | crates/rust-imager-cli/src/wizard.rs:743-759 | Enter on the verification screen leads to the review only with the plan of the present request |
| Wizard.RequestPassedTheGate | crates/rust-imager-cli/src/wizard.rs:644-702 | A request leaves the loop only from the review, with every gate passed, and is the request of that very state |
| Wizard.PressedKeepsGate | crates/rust-imager-cli/src/wizard.rs:644-774 | Every key keeps the gate: each screen is shown only when everything before it has been satisfied by the present fields |
| Wizard.ReturnedRequestIsVetted | crates/rust-imager-cli/src/wizard.rs:644-774 | For every key sequence and all answers, a returned request names a device of the list that was analysed and whose model is the trimmed confirmation, a non-blank output found free, and the plan on show was computed from exactly that request, all of it at keys that were pressed |
| Wizard.TypedModelOpensTheGate | crates/rust-imager-cli/src/wizard.rs:644-774 | When nothing is refused, picking one of the first nine disks, typing its model and accepting every screen returns the request for that disk, the completed default output, the typed model and the default compression and verification |

## Left out

- Flash.FlashImage: opening the target device for writing is taken to succeed (failing there writes nothing), what is read back is what was written, and the byte count in the error for an over-long image is the one read so far, which depends on chunking.
- MbrLaws.RewrittenSlots: does not model the CHS bytes `sfdisk` also rewrites; the parser never reads them.
- Transaction.Written: that mounting, checking and installing leave sector zero alone is an assumption about external tools, not a result.
- Transaction.ExecuteShrink: external tools are state changes that may fail; filesystem tools may change any byte outside sector zero, `sfdisk` refuses lengths over 32 bits, and a tool that fails leaves either its old state, its new state or, for `resize2fs`, any size in between.
- ShrinkSafety.PreparedJobIsSound: takes from the outside that the device has as many bytes as it reports, that what `prepare` read is what is on it, that the filesystem fits its partition and the kernel agrees with the table to begin with, and that the block size is one ext4 has (whole KiB up to 64 KiB).
- SelfAcceptance.CompletedIsAccepted: the codecs are opaque; that decoding gives the encoded range back is part of a completed run, and follows from losslessness.
- Imaging.RunImage: success is promised only for a source that is still as it was prepared (`ShrinkSafety.PreparedOn`); acceptance of what a successful run made is not tied to it.
- Verify.PassedMeansSameBytes: the digest is opaque, and that it tells the strings at hand apart is a hypothesis.
- Extract.ExtractPath: progress callbacks and the wall clock are not modelled; one write to the encoder is one step that takes all or some of a buffer.
- GrowRoot.Board.Run: state-file writes are atomic, one `rm -f` stops at a fault rather than skipping a file, finding root and disk is part of the first command's fault, and the disk is as large as the table can describe.
- Quiescence.QuiesceDisk: starts from parsed `lsblk` and `swapon` output, and does not represent several mountpoints of one node.
- Imaging.TouchedDiskIsFree: takes each list `prepare` and `execute` read as the result of `Discovery.DiscoverCandidates` on some listing with unique paths.
- Discovery.DiscoverCandidates: starts from parsed listings; nested `findmnt` children are not represented, as the flat parse does not represent them either.
- Preparation.ParseExt4Geometry: starts from the numbers found in the tools' output.
- Model.AppModel.Reduce: the fields are grouped into two records, error texts are constructors, and how an automatic output follows the compression (`replace_compression_extension`) is an arbitrary function, so nothing is claimed about the stem.
- Wizard.EventLoop: drawing, poll timeouts and key releases are left out; layout analysis, plan preview, conflict lookup and the default output are arbitrary answers.
- Imaging.OutputConflicting: path suffixes are five distinct names, creating the parent directory is left out, and a log line is written whole or not at all.
- Process spawning, timeouts, exit statuses and signal handling (`command.rs`), real mounts and temporary directories.
- SHA-256, zstd and xz internals; JSON and command-line parsing; filesystem metadata.
- First-boot asset installation (`install.rs`), the flash setup screens, rendering, packaging, demo and CI scripts.
- Byte counts beyond 2^64 in the decode and write loops.
