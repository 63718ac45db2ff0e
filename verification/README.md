# Models of RTEMS library code

A Dafny model of six parts of RTEMS, with proofs of what they promise together rather than line by line.

- **FastLZ** (`LzFormat`, `LzCompress`, `LzDecompress`, `Fastlz`). The format is a script of literal runs and matches with a
  serialisation and a recursive decoder. The imperative compressor is proved to write a script of its input, the imperative
  decompressor to compute the recursive decoder, and the decoder to invert the serialisation.
- **Block stream over a read cache** (`ObjCache`, `ObjComp`). The sliding cache refines slices of a file, the block reader
  refines the concatenation of decoded blocks, and with FastLZ this gives an end-to-end theorem.
- **Driver manager** (`DrvInit`, `DrvTree`, `DrvEnrol`, `DrvRegistry`, `DrvLevels`, `DrvMirror`, `DrvTranslate`, `DrvWalk`,
  `DrvTogether`). The initialisation sweep with re-entrant callbacks, minor numbers and removal of subtrees, address
  translation over bridges, and the walk without a stack; what registration and initialisation keep is shown to be what
  translation and the walk rely on.
- **I2C bus tenure** (`I2cTenure`). The library calls as code that threads run step by step, in every interleaving.
- **FTP server** (`FtpAscii`, `FtpPool`). ASCII conversion over streams cut anywhere, and the session pool as interleaved steps.
- **MD4** (`Md4Block`, `Md4Message`, `Md4`) against RFC 1320, and **section layout** (`SectLinks`, `SectLayout`) of the
  run-time loader.

Code that updates state is a class, or a method with loops over arrays and variables, proved against functions on values.
System calls, callbacks and driver operations are nondeterministic or parameters; where a contract speaks of failure, a
parameter says whether they work, so that a failure is never free. Where the source walks off a list or an array, the model
returns that outcome and says when it occurs. Code that threads interleave is a state machine whose steps are the accesses to
shared state.

## What the code does that its description does not say

- FastLZ gives blocks of one to three bytes the level 1 tag also at level 2. They decode correctly.
- The fields of a match are read without a check against the input length. The model has an outcome for reading past the
  end of memory; for encoded blocks it does not occur.
- The refill loop of the cache does not end for an offset at the end of the file, for a range past the end on a descriptor
  that is new to the cache, and for a cache of size zero. `ObjCache.LoopEnds` is the exact condition.
- The block reader drops what it had buffered when the cache meanwhile served another descriptor. Plain blocks are not
  compared with the buffer size.
- `drvmgr_init_update` starts over only if it processed a device. `DrvInit.Manager.InitUpdate` states the exact condition for a
  complete sweep and one on the drivers that ensures it, and `DrvInit.LateBusRun` is a run that leaves a bus behind.
- `drvmgr_dev_unregister` looks for a device on the list of its driver, where ignored devices are not, and on the list of its
  level, where failed ones are not. `DrvRegistry.Registry.Unregister` says exactly when a walk runs past the end of a list.
- `drvmgr_translate_bus` writes outside its path array for most pairs of buses that are not connected, instead of returning 0.
  `DrvTranslate.TranslateBus` says for which. The calls of `drvmgr_translate` are all between connected buses.
- A raw I2C call for no bytes returns at once and leaves a bus its caller started as it is. `I2cTenure.RawReturn` is the exact
  rule. An ioctl request that the library passes through enters the bus driver without the bus lock.
- The size that `drvmgr_translate` returns is the last offset, not a length, so `drvmgr_translate_check` refuses a range
  that ends with its window.
- A CR at the very end of a stored ASCII stream is never written.
- `MD4Update` adds an illegal count to the bit count before refusing it, and reads one byte beyond the data when the count
  is a multiple of 8, also through the null pointer that `MD4Final` passes. The result does not depend on that byte.
- The section loader skips empty sections that the numbering counts, so it would stop at one. `rtems_rtl_obj_add_section`
  adds none. Sections for uninitialised data are not numbered, so the loader places at most one of them.
- Sizes of sections are summed in list order and sections placed in the order of their links. With alignment the two ends may
  differ, and orders may leave a gap at which the loader stops. Links in a circle of sections without a type are followed for
  ever. `SectLayout.Place` has the exact conditions.

## Model

| member | source | states |
|---|---|---|
| LzFormat.RoundTrip | cpukit/libdl/fastlz.c:140-152 | For every block that encodes a text, at either level: the tag in its first byte selects its own decoder, and decoding gives exactly the text if it fits in `maxout` and an error otherwise, whatever bytes follow the block in memory. |
| LzFormat.DecodeBounded | cpukit/libdl/fastlz.c:420-549 | For arbitrary bytes, well formed or not, an accepted result is longer than what was written before and never longer than `maxout`. |
| LzFormat.FetchSer | cpukit/libdl/fastlz.c:435-463 | The biased length, the chain of 255 bytes and the near or far distance of a serialised match are read back to the same length, distance and cursor. |
| LzFormat.DecodeToken | cpukit/libdl/fastlz.c:429-546 | One serialised instruction is carried out on the output so far, or rejected exactly when its result would not fit. |
| LzFormat.DecodeScript | cpukit/libdl/fastlz.c:420-549 | From any instruction of a script on, the decoder replays the rest of it exactly as far as there is room. |
| LzCompress.Compress | cpukit/libdl/fastlz.c:166-418 | For every input and whatever earlier positions the hash table proposes, the output encodes the input, and every byte of the buffer at or past length + length/32 + 1 is left as it was; 0 is returned only for the empty input. |
| LzCompress.Step | cpukit/libdl/fastlz.c:206-391 | Each turn takes a match, as long as it goes, exactly where a run or the hash table proposes one, and a literal otherwise; it keeps the output a valid encoding of the input so far, the size bound, and every hash entry behind the cursor. |
| LzCompress.Probe | cpukit/libdl/fastlz.c:211-259 | A match is tried exactly when a run or a repetition at the proposed position exists within reach, and what it reports really repeats earlier input. |
| LzCompress.Extend | cpukit/libdl/fastlz.c:261-289 | The match is extended as far as it goes: every byte before the cursor but the last repeats, and it stops at a mismatch or two bytes before the end. |
| LzCompress.PutMatches | cpukit/libdl/fastlz.c:302-369 | A match of any length becomes one instruction, or several at level 1, whose decoding is the matched text, within the size bound. |
| LzCompress.PutLiteral | cpukit/libdl/fastlz.c:382-390 | A literal joins the open run; the 32nd closes the run and reserves the next count byte, keeping the bound. |
| LzCompress.CloseRun | cpukit/libdl/fastlz.c:291-300 | Back-patching the count, or taking back the reserved byte of an empty run, leaves a valid encoding with nothing pending. |
| LzCompress.PutLeftOver | cpukit/libdl/fastlz.c:393-410 | The last bytes go out as literals and the final count is fixed, giving an encoding of the whole input. |
| LzCompress.CompressShort | cpukit/libdl/fastlz.c:180-193 | Blocks of one to three bytes are one literal run that carries the level 1 tag at either level. |
| LzCompress.DocumentedBufferSuffices | cpukit/libdl/fastlz.h:47-48 | A buffer of at least 66 bytes and 1.05 times the input is never smaller than the proved bound. |
| LzDecompress.Decompress | cpukit/libdl/fastlz.c:420-549 | For arbitrary input the loop agrees with the recursive decoder in result and contents, and no byte at or past `maxout` changes. |
| LzDecompress.CopyMatch | cpukit/libdl/fastlz.c:478-525 | The run fill, the 16-bit copy and the byte copy all give the overlapping byte-at-a-time copy, for every distance. |
| LzDecompress.WordCopy | cpukit/libdl/fastlz.c:508-520 | Copying two bytes at once equals copying one at a time whenever the distance is at least two, even or odd overlap alike. |
| LzDecompress.ReadMatch | cpukit/libdl/fastlz.c:435-463 | The cursor arithmetic on length chains and far distances yields the fields the format defines, or an over-read of the memory. |
| Fastlz.CompressAuto | cpukit/libdl/fastlz.c:130-138 | Level 1 below 64 KiB and level 2 above give an encoding under that level. |
| Fastlz.CompressLevel | cpukit/libdl/fastlz.c:154-162 | 0 exactly for empty input or an unknown level, which leaves the output untouched; otherwise an encoding whose tag is that of the level, or of level 1 below four bytes. |
| Fastlz.Decompress | cpukit/libdl/fastlz.c:140-152 | Dispatch on the tag agrees with the specification of the format for arbitrary bytes. |
| Fastlz.CompressThenDecompress | cpukit/libdl/fastlz.c:130-549 | End to end for both levels, both copy widths and any hash positions: the input comes back byte for byte. |
| ObjCache.Cache.Read | cpukit/libdl/rtl-obj-cache.c:73-238 | A successful read hands out precisely the bytes of the file at the offset, shortened only by its end, for any earlier window and any short reads; each refusal happens exactly under its guard and changes nothing, and with working system calls there is no other failure. |
| ObjCache.LoopEnds | cpukit/libdl/rtl-obj-cache.c:116-235 | The refill loop ends if and only if the cache has room, the offset is inside the file and the range does not pass its end. |
| ObjCache.Stuck | cpukit/libdl/rtl-obj-cache.c:116-235 | A window that has slid to the offset and still lacks data is refilled to the same window for ever. |
| ObjCache.Cache.Refill | cpukit/libdl/rtl-obj-cache.c:116-235 | One turn slides the window to the offset and fills it to the cache size or the end of the file, under arbitrary short reads. |
| ObjCache.Cache.CopyDown | cpukit/libdl/rtl-obj-cache.c:158-167 | Moving the kept data down in the overlapping buffer keeps the window a slice of the file. |
| ObjCache.Cache.Fill | cpukit/libdl/rtl-obj-cache.c:191-219 | However many bytes each `read` returns, the buffer ends up holding a contiguous slice of the file. |
| ObjCache.Cache.Flush | cpukit/libdl/rtl-obj-cache.c:62-71 | After a flush the cache is valid for any files, also after a failed read. |
| ObjCache.Cache.ReadByVal | cpukit/libdl/rtl-obj-cache.c:240-255 | All of the requested bytes of the file, or an error; never a part. |
| ObjCache.Serve | cpukit/libdl/rtl-obj-cache.c:62-255 | Any history of reads and flushes over several descriptors, reads past the end that are refused included: every answer is the bytes of its own file or the refusal, and only a failing system call ends it early. |
| ObjComp.Comp.Read | cpukit/libdl/rtl-obj-comp.c:81-179 | For any file, position and length: the bytes delivered are the next ones of what is buffered followed by what exactly the blocks needed decode to, and the rest stays buffered; with working system calls it fails only at a needed block that the cache refuses or the decoder rejects, and goes astray only where the cache does not answer, a plain block is larger than the buffer, or the fields of a block reach past the memory. |
| ObjComp.Comp.Turn | cpukit/libdl/rtl-obj-comp.c:99-176 | Each turn of the loop conserves the stream: what it delivers and what it buffers are what was buffered and what one more block decodes to, which is read only if the buffer is too short. |
| ObjComp.Comp.FetchBlock | cpukit/libdl/rtl-obj-comp.c:122-148 | The block of the 16-bit length comes through the cache byte for byte; with working system calls it is refused exactly where the cache refuses the length or the block, and unanswered where the cache loop does not end or the length is cut off. |
| ObjComp.OneFate | cpukit/libdl/rtl-obj-comp.c:122-148 | At every position, cache size and descriptor exactly one of three holds: the block is framed, refused or unanswered. |
| ObjComp.Comp.DecodeBlock | cpukit/libdl/rtl-obj-comp.c:150-174 | A block is accepted exactly when its decoding is defined and fits, and the buffer then holds that decoding; a plain block larger than the buffer and a read past the memory are outcomes of their own. |
| ObjComp.Comp.Deliver | cpukit/libdl/rtl-obj-comp.c:103-120 | The front of the buffer is handed out and the rest moved down without loss. |
| ObjComp.Comp.Set | cpukit/libdl/rtl-obj-comp.c:66-79 | Position, descriptor and kind of compression are set and nothing is buffered. |
| ObjComp.Unpacks | cpukit/libdl/rtl-obj-comp.c:150-170 | A good block decodes to its chunk whatever follows it in the cache buffer. |
| ObjComp.WithinRegion | cpukit/libdl/rtl-obj-comp.c:81-179 | A read within a known region uses the first of its blocks and meets no position at which it fails or goes astray. |
| ObjComp.ReadWithin | cpukit/libdl/rtl-obj-comp.c:81-179 | Where a region of good blocks is known: with working system calls a read within it succeeds and delivers its bytes, and a read past it fails if no block decodes there. |
| ObjComp.ReadSeries | cpukit/libdl/rtl-obj-comp.c:81-179 | A series of reads split in any way returns consecutive pieces that join to the stream, and fails only if a system call does. |
| ObjComp.PackThenRead | cpukit/libdl/rtl-obj-comp.c:81-179 | From compressor to loader: chunks compressed at either level into a file come back through cache and streamer as their concatenation, for every split of the reads, short reads and copy width. |
| DrvInit.Manager.InitUpdate | cpukit/libdrvmgr/drvmgr.c:117-193 | Terminates for every behaviour of the init functions within a finite budget of registrations; on exit every list below the level is empty if no bus driver registers beyond its first init, and for all drivers if and only if no bus past its first init registered something after the last device was processed. |
| DrvInit.Manager.DoInit | cpukit/libdrvmgr/drvmgr.c:196-326 | Taking an object one level up, with any registrations during its callback, keeps every object in one place; the init function runs exactly if there is one and what the object hangs on has not failed, and what is registered is what the drivers plan. |
| DrvInit.Manager.DrainBuses | cpukit/libdrvmgr/drvmgr.c:140-157 | All buses on a list are taken up, including those that join it meanwhile, and the work left never grows. |
| DrvInit.Manager.DrainDevices | cpukit/libdrvmgr/drvmgr.c:159-178 | Processing any device strictly lowers the work left, which is what makes starting over terminate. |
| DrvInit.Manager.DevRegister | cpukit/libdrvmgr/drvmgr.c:485-577 | Re-entrant registration of a device keeps the invariant, also from inside a callback, and uses up budget. |
| DrvInit.Manager.BusRegister | cpukit/libdrvmgr/drvmgr.c:580-604 | The same for a bus. |
| DrvInit.Manager.Callback | cpukit/libdrvmgr/drvmgr.c:196-326 | Any init function, given as a plan of registrations: only what it plans is registered, the first of it whenever that is possible, the invariant holds and the work left does not grow. |
| DrvInit.Manager.InitLevel | cpukit/libdrvmgr/drvmgr.c:76-90 | The level only rises; after a rise the lists below are empty under the same exact condition. |
| DrvInit.OnePlace | cpukit/libdrvmgr/drvmgr.c:117-326 | In every reachable state each registered object occurs exactly once over all lists and the one in flight, and others not at all; an active one that has not failed is on the list of its level. |
| DrvInit.Consecutive | cpukit/libdrvmgr/drvmgr.c:196-326 | Over a whole run the n-th time an object is taken up it is taken towards level n. |
| DrvInit.Ascending | cpukit/libdrvmgr/drvmgr.c:196-326 | From one time an object is taken up to the next its level rises by one, so no init function runs twice. |
| DrvInit.NeverAfterFailure | cpukit/libdrvmgr/drvmgr.c:196-326 | After a failure an object is never taken up again, and what hangs on it is blocked from then on. |
| DrvInit.BlockedByFailure | cpukit/libdrvmgr/drvmgr.c:203-209 | An object is blocked only if what it hangs on failed earlier in the run. |
| DrvInit.FirstInitOnly | cpukit/libdrvmgr/drvmgr.c:211-213 | Drivers whose buses register only in their first init never meet the condition for an incomplete sweep, whatever else they do. |
| DrvInit.LeftBehind | cpukit/libdrvmgr/drvmgr.c:136-186 | From the outcome of two sweeps under drivers whose only registration is in the second init of a bus: a list below the level is not empty. |
| DrvInit.LateBusRun | cpukit/libdrvmgr/drvmgr.c:117-193 | A run of the manager, from its start over a device and a bus registered, that ends with an unprocessed bus below its level. |
| DrvRegistry.Registry.DevRegister | cpukit/libdrvmgr/drvmgr.c:485-577 | A new device gets the smallest minor number no device of its driver has on that bus and the smallest free in its driver; all lists stay sorted and nothing else changes. |
| DrvRegistry.Registry.BusRegister | cpukit/libdrvmgr/drvmgr.c:580-604 | A new bus gets as depth its distance from the root and keeps the tree well formed. |
| DrvRegistry.Registry.TakeUpDev | cpukit/libdrvmgr/drvmgr.c:255-326 | The list moves of initialising a device, up a level or aside as failed, keep the whole registry valid. |
| DrvRegistry.Registry.TakeUpBus | cpukit/libdrvmgr/drvmgr.c:196-252 | The same for a bus. |
| DrvEnrol.DrvGap | cpukit/libdrvmgr/drvmgr.c:392-419 | The search finds the smallest minor unused by the driver and the position that keeps its list sorted. |
| DrvEnrol.BusGap | cpukit/libdrvmgr/drvmgr.c:429-460 | The same among the devices of one driver on a bus that also holds other drivers and devices without one. |
| DrvEnrol.EnrolledValid | cpukit/libdrvmgr/drvmgr.c:392-460 | Inserting at these positions keeps the whole invariant: sorted minors, tree links, one list per object. |
| DrvEnrol.BusMex | cpukit/libdrvmgr/drvmgr.c:429-460 | The chosen minor is unused by the driver on the bus and all smaller ones are used. |
| DrvEnrol.DrvMex | cpukit/libdrvmgr/drvmgr.c:392-419 | The chosen minor is unused by the driver. |
| DrvLevels.RaiseDevValid | cpukit/libdrvmgr/drvmgr.c:255-326 | Taking the head of a level to the tail of the next keeps links, minor numbers and every list. |
| DrvLevels.DevAsideValid | cpukit/libdrvmgr/drvmgr.c:315-326 | Putting a failed device at the head of the inactive list, still on the list of its driver, keeps them too. |
| DrvMirror.StepMirrored | cpukit/libdrvmgr/drvmgr.c:117-326 | Every step of the initialisation sweep is a move in the registry: the two stay the same objects on the same lists in the same order at the same levels, and the registry stays valid. |
| DrvMirror.DevMirrored | cpukit/libdrvmgr/drvmgr.c:485-577 | Registering a device does the same to the sweep and to the registry. |
| DrvMirror.BusMirrored | cpukit/libdrvmgr/drvmgr.c:580-604 | Registering a bus does the same to the sweep and to the registry. |
| DrvMirror.RegisteredFirst | cpukit/libdrvmgr/drvmgr.c:142-153 | What is registered while an object is off the lists gives the state that registering just before would have given. |
| DrvRegistry.Registry.DevUnregister | cpukit/libdrvmgr/drvmgr_unregister.c:149-185 | On success exactly the device and everything below it is gone from all lists and everything else is as before; the invariant holds on every error path; the code gets lost in a list only at the root or if a device with a driver at or below was ignored or has failed. |
| DrvRegistry.Registry.Separate | cpukit/libdrvmgr/drvmgr_unregister.c:78-142 | Removes what hangs on the bus of the device, then takes it off its driver and moves it to the inactive list; the invariant holds on every path on which no list walk runs past its end. |
| DrvRegistry.Registry.LetGo | cpukit/libdrvmgr/drvmgr_unregister.c:113-129 | The walk for a device on the list of its driver runs past the end if and only if the device is on the inactive list; otherwise the device is separated. |
| DrvRegistry.Registry.BusUnregister | cpukit/libdrvmgr/drvmgr_unregister.c:42-76 | Removes the bus and exactly what hangs below its bridge, whether the bus driver leaves its children to the manager or removes them itself; a driver that stops half way leaves a valid registry and an error; lost only on a device below that cannot be unlinked. |
| DrvRegistry.Registry.RemoveSome | cpukit/libdrvmgr/drvmgr_unregister.c:37-41 | A bus driver removes children one by one in any order and stops when it likes: nothing outside the subtree is gone and the registry is valid; a willing one leaves no child. |
| DrvRegistry.Registry.ChildrenUnregister | cpukit/libdrvmgr/drvmgr_unregister.c:20-35 | On success no child is left and nothing outside the subtree is gone; lost only if a device below cannot be unlinked. |
| DrvRegistry.Registry.Unregister | cpukit/libdrvmgr/drvmgr_unregister.c:149-185 | With willing drivers the call gets lost if and only if the device is the root or a device with a driver at or below it was ignored or has failed, and otherwise exactly the subtree is gone, with no bound on depth. |
| DrvRegistry.IgnoredRun | cpukit/libdrvmgr/drvmgr_unregister.c:113-121 | A run: an ignored device with a driver is registered and unregistered, and the walk for it runs past the end of the list. |
| DrvRegistry.FailedRun | cpukit/libdrvmgr/drvmgr_unregister.c:123-126 | A run: a device is registered, fails its init and is unregistered, and the walk for it runs past the end of the list. |
| DrvTree.ExactlySubtree | cpukit/libdrvmgr/drvmgr_unregister.c:20-185 | If a valid state loses a device and nothing outside its subtree, then it lost exactly the subtree, buses included. |
| DrvTree.RestrictValid | cpukit/libdrvmgr/drvmgr_unregister.c:20-185 | Restricting all tables and lists to a part closed under links keeps sortedness, links and list membership. |
| DrvTree.SeparatedValid | cpukit/libdrvmgr/drvmgr_unregister.c:79-142 | Separating a device from its driver keeps the invariant. |
| DrvTranslate.TranslateBus | cpukit/libdrvmgr/drvmgr_translate.c:32-127 | Between connected buses the result is the composition of all bridges on the path and the smallest room on it; too long a path, and a walk that passes the root, give 0 and no address; the walk writes outside its array if and only if the buses are not connected, less than 16 levels apart, and the source is not the deeper one or is at depth 16 or more. |
| DrvTranslate.FillPath | cpukit/libdrvmgr/drvmgr_translate.c:65-78 | The path array is filled with exactly the buses between the two, in the order of travel, because depth is distance from the root; the upper bus is found if and only if it is on the way; without it the walk leaves the array always if the target is the deeper bus, and otherwise from depth 16 on. |
| DrvTranslate.SiblingsRun | cpukit/libdrvmgr/drvmgr_translate.c:65-78 | Two buses on the root bus: the call writes outside its path array. |
| DrvTranslate.Translate | cpukit/libdrvmgr/drvmgr_translate.c:129-148 | The four options translate along the path between the root and the bus of the device, in the direction and table the option names. |
| DrvTranslate.OppositeUndoes | cpukit/libdrvmgr/drvmgr_translate.c:32-148 | The option pairs undo each other: address and size come back, through any number of bridges. |
| DrvTranslate.ThereAndBack | cpukit/libdrvmgr/drvmgr_translate.c:129-148 | Two calls with opposite options: whenever the first returns a size other than 0 the second returns the source address and the same size. |
| DrvTranslate.TripBack | cpukit/libdrvmgr/drvmgr_translate.c:80-120 | A path walked the other way with windows turned round leads back with the same room. |
| DrvTranslate.Contiguous | cpukit/libdrvmgr/drvmgr_translate.c:80-120 | Every address up to the reported size translates to the same offset from the result. |
| DrvTranslate.WayBack | cpukit/libdrvmgr/drvmgr_translate.c:53-86 | The way back uses the same tables in opposite order. |
| DrvTranslate.TranslateCheck | cpukit/libdrvmgr/drvmgr_translate_check.c:19-36 | 0 exactly when the size does not exceed the reported last offset, and then the whole range has a linear image; a range that ends with its window is refused. |
| DrvTranslate.BridgeExample | cpukit/libdrvmgr/drvmgr_translate.c:129-148 | Through a bridge with one window, address 0x10 on the bus is CPU address 0x40001010 with 0xef more behind it. |
| DrvTranslate.OverlapExample | cpukit/libdrvmgr/drvmgr_translate.c:96-114 | Windows that overlap on one side do not translate back, so their disjointness is needed. |
| DrvWalk.ForEachDepth | cpukit/libdrvmgr/drvmgr_for_each_dev.c:45-78 | The stackless walk terminates on every well-formed tree and calls the function on its devices in pre-order, up to and including the first that returns a value other than 0, which is returned. |
| DrvWalk.Advance | cpukit/libdrvmgr/drvmgr_for_each_dev.c:57-75 | Going down, across or up through parent links leaves exactly the rest of the pre-order to visit. |
| DrvWalk.Next | cpukit/libdrvmgr/drvmgr_for_each_dev.c:64-73 | Climbing skips finished levels only, and ends exactly when nothing is left. |
| DrvTogether.RegistryRooted | cpukit/libdrvmgr/drvmgr_translate.c:65-148 | Every valid registry with one root, with any address tables, is the tree of buses that translation relies on. |
| DrvTogether.RegistryWhole | cpukit/libdrvmgr/drvmgr_for_each_dev.c:45-78 | Every valid registry with one root is the linked structure that the walk relies on. |
| DrvTogether.WalkVisitsAll | cpukit/libdrvmgr/drvmgr_for_each_dev.c:45-78 | The pre-order over a valid registry has every device but the root, each once. |
| DrvTogether.WalkRegistry | cpukit/libdrvmgr/drvmgr_for_each_dev.c:45-78 | The stackless walk over a valid registry visits a prefix of the pre-order, which has every device but the root exactly once; the function was 0 before the last device visited, and all are visited unless it was not 0 there, which is returned. |
| DrvTogether.Boot | cpukit/libdrvmgr/drvmgr.c:329-356 | The first registrations establish a valid registry with one root device and its bus. |
| DrvTogether.AddDevice | cpukit/libdrvmgr/drvmgr.c:485-577 | Registering a device on a bus keeps that. |
| DrvTogether.AddBus | cpukit/libdrvmgr/drvmgr.c:580-604 | Registering a bus on a device keeps that. |
| I2cTenure.Tenure | cpukit/libi2c/libi2c.c:173-208 | Over every interleaving from a fresh bus: one mutex at most is ever created, and only by the thread with the library lock; whoever enters the bus driver through a start, stop or transfer or passes the started test owns the bus; nothing is released unheld; between calls a thread holds the bus once if it started it and not at all otherwise; raw calls that move bytes end with it released. |
| I2cTenure.OneInDriver | cpukit/libi2c/libi2c.c:472-577 | No two threads are in the bus driver at once through start, stop or transfer. |
| I2cTenure.Quiescent | cpukit/libi2c/libi2c.c:482-528 | With no call under way the bus is held, once, if and only if it is started. |
| I2cTenure.LibShape | cpukit/libi2c/libi2c.c:173-201 | Each step of the double-checked creation keeps the count of mutexes created equal to those stored plus the one its lock holder has yet to store. |
| I2cTenure.RawReturn | cpukit/libi2c/libi2c.c:262-320 | Over every interleaving a raw call returns with the bus released if and only if it has bytes to move or its caller did not hold the bus before. |
| I2cTenure.EmptyRawKeepsBus | cpukit/libi2c/libi2c.c:270-273 | A run: a thread starts the bus, makes a raw call for no bytes, and still holds the bus. |
| I2cTenure.PassBeside | cpukit/libi2c/libi2c.c:643-645 | A run: a request passed through by ioctl enters the bus driver while another thread owns the bus and is in the driver. |
| I2cTenure.StepInv | cpukit/libi2c/libi2c.c:173-681 | Every step of every thread keeps the invariant that all remaining code is safe to run. |
| I2cTenure.BodyGood | cpukit/libi2c/libi2c.c:262-681 | Every library call, on every success and failure path, keeps the discipline from any state between calls. |
| I2cTenure.ModeTransferGood | cpukit/libi2c/libi2c.c:606-642 | The combined transfer of ioctl, with a failure of either sign at each driver request, keeps the discipline. |
| I2cTenure.StartGood | cpukit/libi2c/libi2c.c:482-511 | A start that succeeds leaves the bus held once and started, a repeated start does not nest, and a failed one leaves it released. |
| I2cTenure.StopGood | cpukit/libi2c/libi2c.c:513-528 | A stop of a started bus gives up the hold from start; a stop of a bus not started changes nothing. |
| I2cTenure.NotStartedGood | cpukit/libi2c/libi2c.c:472-480 | A caller that finds the bus started is its owner. |
| FtpAscii.Retrieve | cpukit/ftpd/ftpd.c:822-856 | What is sent is the file with CR LF for each line feed, for every way `read` cuts it, up to the byte where the far side stops; success if and only if it takes all. |
| FtpAscii.SendChunk | cpukit/ftpd/ftpd.c:827-854 | One buffer is sent expanded, wherever its line feeds are. |
| FtpAscii.Store | cpukit/ftpd/ftpd.c:1050-1110 | File and number of bare line feeds depend only on the concatenated stream, not on how `recv` cuts it; a disk that takes less leaves exactly the prefix it takes, and that is the only failure. |
| FtpAscii.StoreChunk | cpukit/ftpd/ftpd.c:1056-1108 | One buffer, with a CR pending from the one before, adds what the stream specification says and leaves the right CR pending. |
| FtpAscii.Scan | cpukit/ftpd/ftpd.c:1076-1096 | The scan finds the next CR LF across the buffer boundary and counts exactly the line feeds without CR. |
| FtpAscii.CollapseConcat | cpukit/ftpd/ftpd.c:1050-1110 | Cutting the stream anywhere and carrying the pending CR over gives the same file and the same count. |
| FtpAscii.CollapseStrips | cpukit/ftpd/ftpd.c:1050-1110 | The file is the stream without each CR that a line feed, or the end of the stream, follows. |
| FtpAscii.CollapseExpand | cpukit/ftpd/ftpd.c:822-1110 | Storing what retrieving sends gives the file without a CR at its end, and counts no bare line feed. |
| FtpAscii.RetrieveThenStore | cpukit/ftpd/ftpd.c:822-1110 | RETR then STOR is the identity if and only if the file does not end in CR, for any cutting of file and stream. |
| FtpPool.Accounting | cpukit/ftpd/ftpd.c:393-523 | Under every interleaving the ring holds what its pushes and pops leave, in order; its length is the semaphore plus threads past it that have not popped plus threads that pushed and have not posted; ring, hands and handed-out sessions are together the original ones. |
| FtpPool.Exclusive | cpukit/ftpd/ftpd.c:485-523 | A session a thread holds is an original one, is not in the ring, is not handed out elsewhere and is in no other hand. |
| FtpPool.OnePlace | cpukit/ftpd/ftpd.c:393-523 | Under every interleaving each session of the pool is exactly once in the ring, in one hand or handed out once, never in two of them. |
| FtpPool.NullWhenAllOut | cpukit/ftpd/ftpd.c:485-500 | With no call under way obtain gives NULL exactly when all sessions are out. |
| FtpPool.NullMeansSpokenFor | cpukit/ftpd/ftpd.c:485-500 | With calls under way NULL is given exactly when sessions out, in hand and promised add up to the pool. |
| FtpPool.StepInv | cpukit/ftpd/ftpd.c:485-523 | Every step of obtain or release by any thread keeps the invariant. |
| FtpPool.StepFree | cpukit/ftpd/ftpd.c:492-522 | The ring with its wrapping indices behaves as a first-in first-out queue and is never empty when read nor full when written. |
| FtpPool.InitInv | cpukit/ftpd/ftpd.c:393-468 | The initial pool satisfies the invariant. |
| Md4.Hash | cpukit/libmd/md4.c:105-297 | Any number of full-block updates closed by an update of any number of bits below 512 yields the MD4 of the whole bit string by sections 3.1 to 3.5 of RFC 1320. |
| Md4.Context.Update | cpukit/libmd/md4.c:211-276 | A full block is absorbed, a shorter update closes with the digest of all bits; a closed context refuses more data without change; a count above 512, up to the largest `unsigned int`, is refused after it was added to the bit count. |
| Md4.Context.Close | cpukit/libmd/md4.c:249-275 | One or two final blocks are the padding of section 3.1 and the length of section 3.2 of RFC 1320 for every bit length. |
| Md4.Context.Final | cpukit/libmd/md4.c:281-297 | The output is the digest low-order byte first, whether or not the context was closed before. |
| Md4.Context.Init | cpukit/libmd/md4.c:105-116 | A fresh context has absorbed the empty bit string. |
| Md4.AddCount | cpukit/libmd/md4.c:229-236 | The carry loop makes the eight bytes the sum, low-order byte first; if adding the low-order byte wraps at 32 bits they hold exactly 2^32 less. |
| Md4.Fill | cpukit/libmd/md4.c:251-259 | The last byte is masked to the bits of the message and the padding bit whatever the byte read beyond it, and zeros follow. |
| Md4Block.Block | cpukit/libmd/md4.c:124-196 | The 48 unrolled macros are the table-driven operations of section 3.4 of RFC 1320 on the words of the block, added to the buffer. |
| Md4Block.Round1 | cpukit/libmd/md4.c:144-159 | Sixteen macros equal operations 0 to 15 of the table. |
| Md4Block.Round2 | cpukit/libmd/md4.c:160-175 | Sixteen macros equal operations 16 to 31, which take the words by columns. |
| Md4Block.Round3 | cpukit/libmd/md4.c:176-191 | Sixteen macros equal operations 32 to 47, which take the words with bits of the index reversed. |
| Md4Block.RotRotates | cpukit/libmd/md4.c:79-82 | The two shifts joined are a rotation, for every amount used. |
| Md4Message.TailOctet | cpukit/libmd/md4.c:251-259 | Each byte of the padded rest is a message byte, the masked last byte or zero. |
| SectLayout.Place | cpukit/libdl/rtl-obj.c:820-895 | Sizing, numbering and loading of one kind, with any links: numbering never ends if and only if the links of a section do not; otherwise all sections are placed if and only if the orders leave no gap among sections that are not empty; those placed are aligned and disjoint, and lie inside the summed size if and only if their end in load order does; whenever load order is list order a section is placed if and only if no section of its kind up to it is empty, and with none empty all fit. |
| SectLayout.Obj.Loader | cpukit/libdl/rtl-obj.c:752-819 | For arbitrary load orders the restarting loop terminates and places, for each order from 0 up, the first section with it, at the aligned end of the one before; it stops exactly at a section whose loading fails, which keeps no base. |
| SectLayout.Obj.LinkOrder | cpukit/libdl/rtl-obj.c:723-750 | Unlinked sections of the kind get their rank among those; linked ones the position, within its type, of the section their links end at; all else is unchanged; it does not end if and only if the links of some section do not. |
| SectLinks.LinkedOrder | cpukit/libdl/rtl-obj.c:671-721 | For any sections: the recursion ends if and only if the links do, at the position of the last section within its type, or with -1 for a missing section or a type seen before. |
| SectLinks.CircleEndless | cpukit/libdl/rtl-obj.c:689-703 | A circle of linked sections without a type is never left, because passing them leaves no mark. |
| SectLinks.SelfLinkedEndless | cpukit/libdl/rtl-obj.c:689-703 | An input: a code section linked to a section without a type that is linked to itself. |
| SectLayout.TypedNoLoop | cpukit/libdl/rtl-obj.c:671-750 | Links that do not lead from sections with a type to linked ones without always end. |
| SectLayout.Obj.SectionSize | cpukit/libdl/rtl-obj.c:266-288 | The summed size, with alignment between sections. |
| SectLayout.Align | cpukit/libdl/rtl-obj.c:250-256 | The least multiple of the alignment that is not below the offset. |
| SectLayout.PlacedIffClear | cpukit/libdl/rtl-obj.c:752-819 | Exactly the sections with no empty one of their kind at or before them are placed. |
| SectLayout.PlacedIffGapless | cpukit/libdl/rtl-obj.c:752-819 | For any load orders: every section of the kind is placed if and only if each order from 0 up to their number is taken by a section that is not empty. |
| SectLayout.LaidBehind | cpukit/libdl/rtl-obj.c:752-819 | For any load orders the sections placed are aligned and do not overlap. |
| SectLayout.LaidInside | cpukit/libdl/rtl-obj.c:752-819 | For any load orders an area holds the sections placed if and only if it reaches the end of the last. |
| SectLayout.CrossedRun | cpukit/libdl/rtl-obj.c:820-895 | A run: two linked sections whose load order is not their list order end behind the summed size. |
| SectLayout.EndIsSum | cpukit/libdl/rtl-obj.c:266-819 | The independent summing pass and the placement loop agree at every position reached. |
| SectLayout.AllPlaced | cpukit/libdl/rtl-obj.c:723-819 | With no empty section all are placed once, and the end of the layout is exactly the summed size. |
| SectLayout.UnnumberedFirstOnly | cpukit/libdl/rtl-obj.c:752-819 | Sections that were given no order, as those for uninitialised data, get at most one placement between them. |

## Left out

- LzCompress.Compress: the hash function is any function of the position, so the two-byte hash of `HASH_FUNCTION` and its read one byte past the input are not modelled; inputs are below 2^31 bytes, as the `int` length requires.
- LzDecompress.Decompress: the state of the output after a rejected or over-running input is bounded but not described byte by byte.
- ObjCache.Cache.Read: requires the range for which the loop ends; `ObjCache.LoopEnds` shows that nothing less suffices. `lseek` and `read` are calls on an immutable file.
- ObjComp.Comp.Read: nothing is stated about the state after the reader has failed or gone astray.
- ObjComp.Comp.DecodeBlock: what the source does with the bytes behind the cache buffer, when the fields of a block reach there, is an outcome and not described further.
- DrvInit.Manager.InitUpdate: the number of registrations still to come is finite; the recursion of registration outside initialisation is unfolded once, as the `initializing` flag does.
- DrvInit.Manager.DoInit: `do_bus_init` and `do_dev_init` are one method over the object kinds; the loading of driver resources and the printing are not modelled.
- DrvRegistry.Registry.DevRegister: finding the driver for a device is a parameter; `short` minor numbers do not overflow and the device counters are not modelled.
- DrvRegistry.Registry.DevUnregister: nothing is stated about the state after a walk past the end of a list, or about which devices are gone after an error.
- DrvTranslate.TranslateBus: nothing is stated about what a write outside the path array does; depth does not wrap at 256.
- DrvTranslate.OppositeUndoes: requires windows that are disjoint on both sides and do not wrap; `DrvTranslate.OverlapExample` shows why.
- I2cTenure.Tenure: one bus with its mutex; a failure to create the mutex, which stops the system, is not modelled, nor is the ioctl request for the driver table, which touches no bus.
- FtpPool.Accounting: creating and deleting session tasks, and failures of that, are not modelled.
- Md4.Hash: the total is below 2^64 bits, beyond which the source writes past its count.
- SectLayout.Align: uses remainders in place of bit masks, which agree for the powers of two that the source assumes, and sizes do not wrap.
- The linked lists of drvmgr_list.c are sequences; pointer updates and the tail pointer are not modelled.
- The breadth-first walk, the unresolved-symbol table, the link map for debuggers, the ELF and RAP loaders, relocation and archive search.
- The debugger server, password hashing, FTP commands, sockets and replies, I2C registration and file system nodes, shell and tracing code.
