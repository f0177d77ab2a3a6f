# A verified model of the camera streamer

The repository is a camera streaming and recording library for a Raspberry Pi, with the parts of
libcamera it builds on. This project models the stateful components of both and proves what they
promise: what every step of a protocol keeps, what holds over whole runs and under every
interleaving, and that the incremental, pointer-moving code agrees with simple definitions of its
result.

| files | component |
|---|---|
| FrameRecord, FrameNodes, FrameLists, FrameRuns, FrameDelays, FrameSpans, FrameCodes, FrameCursor | the recording list of framelist.c: a linked list with a read cursor, three ways to start, stopping on duration |
| RecordFile, RecordFiles | saving the list to a file and loading it, streamer.c |
| Sizes, StreamBuckets, RoundRobin, StreamSort, StreamConfigure, Resolutions | the order of sizes and the Android stream planning of camera_device.cpp |
| RequestLoop, RequestOrder, Restarts, LibcameraApp | the circulation of requests and buffers in libcamera_app.hpp |
| GstAllocator, GstPool, GstOrder, GstClasses | the GStreamer frame allocator and buffer pool |
| CaptureLoop, CaptureRefused, Capture | the counted capture of the cam tool and its event loop |
| LiveSlot, LiveRuns, LiveLaws, LiveLatency, LiveStops, LiveStamps, KCamera | the single-slot live view of kcamera.c |
| EncoderQueues, EncoderLine, H264Encoder | the buffer indices and time stamps of the H.264 encoder |
| Texts, KeyValue, KeyValueParsers | the key=value option parser |
| HalIds, HalSuccesses, HalCollisions, CameraHal | camera ids of the Android HAL |
| StableSorts, IncludeOrder, TidyIncludes, Diffs, DiffHunks | include ordering and diff hunks in checkstyle.py |
| Machine, Seqs, Sorts, Wrappers | fixed-width integers, facts about sequences, insertion sort, Option |

How the model is built:

- Each component has a value specification (its state as a datatype, its operations as functions or
  as atomic steps) and, where the source updates things in place, classes and loops whose contracts
  tie the new state to the specification. What the source promises is proved about the
  specification.
- A protocol is a state machine over its steps. Each region under a mutex, and each call into the
  camera or a device, is one step; runs are arbitrary sequences of enabled steps, so the theorems
  hold for every interleaving.
- Widths matter where the source truncates: `m_t0` is an `int`, `flistTime` returns `unsigned`, time
  stamps are `uint64_t`, `time_t` may have 32 bits, counters wrap at 2^32.
- The environment (the camera, a device, memory, the clock, a library's answer) is a parameter.

What does not hold as promised, and the exact condition under which it does:

- A delayed start does on every history what it promises exactly when the first time stamp is below
  2^31 microseconds, or so near to 2^64 that no time stamp can be a shift later: `m_t0` is an `int`
  (framelist.c:52-58). From 2^31 to 2^64 - 2^31 the start shift has no effect; above that `m_t0` is
  negative and set again at every frame, so the delay never expires (`DelayHonoured`,
  `DelayIgnored`, `DelayNeverExpires`).
- A recording stops at the first frame with which its span reaches the duration exactly when that
  span modulo 2^32 is not less than the duration, as it always is below 2^32 microseconds:
  `flistTime` returns `unsigned` (`RecordingSpans`, `TakenBySpan`, `ShortSpansAreSeen`). A gap of
  2^32 is missed (`SpanMissed`).
- A pre-roll buffers for ever exactly when the duration is 0 or exceeds the shift; a shorter duration
  stops it while it is still waiting (`PreRollNeverStops`).
- The cursor and `m_readIndex` agree after an append exactly when the cursor is at the front or the
  append frees nothing, which its time stamp and that of the first frame decide (`AgreementKept`,
  `FreesWhen`). A pre-roll that is read to its end and then trimmed loses the agreement
  (`TrimBehindReader`).
- Saving and loading gives the same frames exactly when the memory block of every frame is as the
  camera stores it (`SaveLoadRoundTrip`).
- The documentation of `operator<` on sizes promises an order by area and then width; it does that,
  and it is a strict weak order, but it tells all sizes apart only where the width is not zero
  (`LessIsTotal`).
- Stopping and restarting the libcamera application keeps its books exactly when no completion, no
  held buffer set and no half-queued request is left over (`RestartIsClean`). After a completion in
  transit or a held set some run gives the warning, and only then (`RestartWarns`); a run that does
  is `RestartGoesWrong`, and a half-queued request is there twice (`RestartDoubles`).
- A frame without planes never comes back to its pool (`PrepareKeeps`). An acquire may fail although
  a frame is free: while another acquire has popped the last buffer, or between reset_buffer and
  release_buffer (`AcquireFails`, `AcquireInBetween`).
- `processRequest` ignores a refused request; a capture that can go no further has left its loop
  exactly if none was refused (`LeavesWhen`), and a run that never leaves it is `RefusedNeverLeaves`.
- A frame delivered live is older than the maximum latency exactly when the newest frame seen came
  during a recording and is stamped that much later (`LateWhen`); a run that delivers one, for every
  latency, is `StaleDelivery`.
- Encoder time stamps survive exactly when their seconds fit `time_t` (`EchoIsSame`).
- HAL ids are unique exactly while there are not both an external camera and more than 1000 internal
  ones (`IdsAreUnique`), and a history brings that about (`IdsCollide`). Removing an external camera
  needs callbacks that nobody may have set yet (`RemovalNeedsCallbacks`, `RemovedTooEarly`).

## Model

| member | source | states |
|---|---|---|
| FrameNodes.NodeChain.PushBack | framelist.c:73-86 | a node linked behind the last one makes the list one frame longer at the end, with the cursor on the same node (a cursor at the end moves on to the new one) |
| FrameNodes.NodeChain.FreeFront | framelist.c:99-102 | freeing the front node drops the first frame; a cursor at the front stays at the front, another one at its node |
| FrameNodes.NodeChain.TrimBefore | framelist.c:92-103 | the trimming loop terminates and leaves what the recursive definition of the unexpired frames leaves, never nothing; it says whether it reached the last node |
| FrameLists.FrameList.constructor | framelist.c:5-18 | a new list is the initial record for its shift and duration |
| FrameLists.FrameList.Clear | framelist.c:27-37 | clearing leaves the initial record for the same shift and duration |
| FrameLists.FrameList.AppendFrame | framelist.c:39-116 | the linked list after an append is that of the value specification, in every mode; the answer is -1 exactly if the append stopped a list that was not stopped, else 0 |
| FrameCodes.RecordingCodes | framelist.c:105-115 | over a run a recording answers 0 up to the first frame at which flistTime reaches the duration, -1 to that one and 0 afterwards |
| FrameCodes.CodesOnce | framelist.c:45-115 | in every mode at most one frame is answered with -1 |
| FrameCodes.PreRollCodes | framelist.c:88-115 | a pre-roll whose duration is 0 or exceeds the shift never answers -1 |
| FrameLists.FrameList.DelayStart | framelist.c:51-71 | t0, the frame held back and the transition to recording |
| FrameLists.FrameList.TrimWindow | framelist.c:88-104 | the window after the append of a pre-roll |
| FrameLists.FrameList.Start | streamer.c:260-266 | switching a list to recording changes nothing else |
| FrameLists.FrameList.Stop | kcamera.c:531-540 | stopping a list changes nothing else |
| FrameLists.FrameList.FlistSeek | framelist.c:118-128 | the walk from the front reaches the n-th node, or fails and leaves everything alone when there is none |
| FrameLists.FrameList.FlistNext | framelist.c:130-142 | reading returns the frame under the cursor and moves on, or returns none at the end |
| FrameLists.FrameList.FlistEnd | framelist.c:144-147 | true exactly when the cursor is behind the last frame |
| FrameLists.FrameList.FlistVerify | framelist.c:149-161 | the walk over the list, and the seek back, leave what the specification of the walk says |
| FrameLists.FrameList.FlistTime | framelist.c:163-166 | the span of the list as the specification truncates it |
| FrameRuns.PreRollRefinement | framelist.c:73-104 | after any history in order of time a pre-roll list holds exactly the frames of the whole history within the shift of the newest, and is never empty |
| FrameRuns.RecentIsSuffix | framelist.c:88-104 | those frames are a suffix of the history |
| FrameRuns.WindowStep | framelist.c:88-104 | trimming what was left of the window after one more frame gives the window of the longer history |
| FrameRuns.BackReached | framelist.c:94-98 | the loop reaches the appended node exactly when all nodes before it are too old and the shift carries its time stamp across 2^63, so never on time stamps below that |
| FrameRuns.PreRollNeverStops | framelist.c:105-114 | a pre-roll goes on over every history exactly when the duration is 0 or longer than the shift |
| FrameRuns.PreRollThenRecord | streamer.c:260-266 | starting after a pre-roll keeps the window and records on from it, up to the duration |
| FrameRuns.TakenIsShortest | framelist.c:105-115 | a recording takes the shortest prefix of the later frames at which flistTime reaches the duration, or all of them |
| FrameRuns.RecordingRun | framelist.c:73-116 | over a whole run a recording holds exactly those frames, and stops exactly if flistTime reaches the duration |
| FrameRuns.ImmediateRun | framelist.c:5-116 | without a start shift the list is the history cut so |
| FrameRuns.StoppedIgnores | framelist.c:45-49 | a stopped list ignores every further frame |
| FrameDelays.FirstRipeIsFirst | framelist.c:58-70 | the expiry of a delayed start is the first frame whose distance from the first one reaches the shift |
| FrameDelays.DelayedHolds | framelist.c:56-71 | until the shift has passed the list holds the newest frame and nothing else |
| FrameDelays.DelayedRun | framelist.c:51-116 | until the expiry the list holds the newest frame; after it the last frame before the expiry and every later frame, up to the one at which flistTime reaches the duration |
| FrameDelays.DelayHonoured | framelist.c:51-58 | every history that begins with a frame goes as promised exactly if its time stamp is below 2^31 or within the shift of 2^64 |
| FrameDelays.DelayIgnored | framelist.c:51-70 | with a first time stamp from 2^31 to 2^64 - 2^31 the whole run is that of a list without a start shift |
| FrameDelays.DelayNeverExpires | framelist.c:52-71 | with one above that, the list holds the newest frame and nothing else, however late that is |
| FrameSpans.TimeIsSpan | framelist.c:163-166 | flistTime is the span exactly if that is below 2^32 |
| FrameSpans.RecordingSpans | framelist.c:73-116 | a recording stops at the first frame with which its true span reaches the duration, and holds the frames up to it, exactly if that span modulo 2^32 is not less; if there is no such frame it goes on with all of them |
| FrameSpans.DelayedSpans | framelist.c:51-116 | the same of a delayed start from its expiry on |
| FrameSpans.TakenBySpan | framelist.c:105-116 | the frames taken end at that frame exactly under that condition |
| FrameSpans.ShortSpansAreSeen | framelist.c:105-116 | so they do whenever the frame comes less than 2^32 microseconds after the first |
| FrameSpans.SpanMissed | framelist.c:163-166 | two frames 2^32 microseconds apart do not end a recording of any duration |
| FrameCursor.AgreementKept | framelist.c:92-103 | an append keeps cursor and index in agreement exactly if the cursor is at the front or it frees nothing |
| FrameCursor.FreesWhen | framelist.c:56-103 | an append frees a node exactly if the first frame is older than the cutoff, or a delayed start holds back one frame and has not expired |
| FrameCursor.TrimBehindReader | framelist.c:92-142 | a run that ends without agreement: a pre-roll is read to its end and trimmed by the next append |
| FrameCursor.CursorRefinement | framelist.c:118-147 | over any interleaving of appends, seeks, reads and verifications that frees only at the front, the cursor is the m_readIndex-th place and m_readIndex at most m_len |
| FrameCursor.StepStaysInList | framelist.c:118-161 | such a run can always go on |
| FrameCursor.VerifyRestores | framelist.c:149-161 | flistVerify puts the cursor back exactly if it agreed with the index, also at the end, where its last seek fails |
| FrameCursor.ReadsAreContiguous | framelist.c:130-142 | whatever is appended meanwhile, the frames read are one stretch of the list from where reading began |
| FrameCursor.ReadToTheEnd | framelist.c:130-147 | a reader at the end has got every frame from where it began |
| FrameCursor.SeekThenReads | framelist.c:118-142 | after a seek to n, wherever the cursor was, reading gives the n-th frame and those after it |
| RecordFormat.Le32RoundTrip | streamer.c:378-379 | reading back four bytes gives the number written |
| RecordFormat.SavedBytes | streamer.c:376-380 | a saved file is, for each frame, the bytes 1c 51 ab c1, the four bytes of width * height * 3 + 56, and as many bytes of its block |
| RecordFormat.HeaderFields | kcamera.c:366-370 | the width, height and time stamp of a frame are those at bytes 0, 2 and 8 of its block |
| RecordFormat.LoadAcceptsRecords | streamer.c:60-112 | with memory available a file loads exactly if it is a concatenation of (magic, n, n bytes) records and fewer than four bytes, and the records are those, in order |
| RecordFormat.MemoryOnlyCuts | streamer.c:63-100 | running out of memory loads a prefix, and reports failure unless nothing was cut |
| RecordFormat.LoadsWhen | streamer.c:60-112 | a file loads exactly if it would with ample memory, and there is memory for each record and for the look at its end |
| RecordFormat.LoadedHoldsAll | streamer.c:104-111 | the loaded list holds every record of the file |
| RecordFormat.ReloadedFrames | streamer.c:376-380 | the saved blocks are the frames exactly if each is as a camera stores it |
| RecordFormat.SaveLoadRoundTrip | streamer.c:47-113 | what save writes loads, and gives the same frames exactly under that condition |
| RecordFiles.Save | streamer.c:346-394 | the file is the concatenation of the records, the result the sum of 8 + size over the frames modulo 2^32, and the list is read to its end |
| RecordFiles.Load | streamer.c:47-113 | the result is 0 exactly if the file parses, and the list holds what was parsed |
| Sizes.LessIsAreaThenWidth | libcamera/src/libcamera/geometry.cpp:343-360 | the three criteria together order sizes by area, then width |
| Sizes.AtMostMeans | libcamera/src/libcamera/geometry.cpp:343-360 | a size is not larger than another exactly with a smaller area, or the same area and no larger width |
| Sizes.LessIsStrictWeak | libcamera/src/libcamera/geometry.cpp:343-360 | it is a strict weak order, as std::sort needs |
| Sizes.LessIsTotal | libcamera/src/libcamera/geometry.cpp:334-360 | neither of two sizes is smaller exactly if they are equal or both have width zero |
| StreamBuckets.AddKeepsMap | libcamera/src/android/camera_device.cpp:163-176 | filing a configuration keeps the map in format order and adds just that configuration |
| StreamSort.FillBuckets | libcamera/src/android/camera_device.cpp:161-176 | every configuration is in a bucket, but for the first one that serves the JPEG stream |
| StreamSort.JpegIsFirst | libcamera/src/android/camera_device.cpp:164-174 | the one set aside is the first that serves the JPEG stream |
| StreamSort.SortBuckets | libcamera/src/android/camera_device.cpp:181-191 | every bucket is in ascending order of size and has its old contents |
| Sorts.Sort | libcamera/src/android/camera_device.cpp:181-191 | the sort gives an ascending permutation, for any total comparison |
| StreamSort.PutHeads | libcamera/src/android/camera_device.cpp:196-234 | the heads are the largest NV12 configuration and the JPEG one, the larger of them first if both are NV12 |
| StreamSort.Drain | libcamera/src/android/camera_device.cpp:236-252 | the nested loops terminate and append the rounds of the drain |
| RoundRobin.DrainedContents | libcamera/src/android/camera_device.cpp:240-252 | the drain emits each configuration left in the buckets, once |
| RoundRobin.DrainedOf | libcamera/src/android/camera_device.cpp:240-252 | each format comes out of its bucket from the largest to the smallest |
| RoundRobin.WithinRound | libcamera/src/android/camera_device.cpp:241-251 | within one pass each format comes once at most, formats in map order |
| RoundRobin.DrainIsFair | libcamera/src/android/camera_device.cpp:240-252 | at every point no format is more than one ahead of another that is not used up, and earlier formats are never behind |
| StreamSort.HeadsAndTail | libcamera/src/android/camera_device.cpp:193-254 | the whole output is a permutation of the input, NV12 first and largest if there is any, JPEG at place 0 or 1, each format but for JPEG descending, the tail fair |
| StreamSort.SortConfigs | libcamera/src/android/camera_device.cpp:158-257 | the method produces such an output, and fails exactly if a JPEG stream is given that no configuration serves |
| StreamConfigure.DirectConfigs | libcamera/src/android/camera_device.cpp:1683-1738 | accepts exactly the lists with known formats, no rotation and at most one JPEG stream, and makes the configurations of the other streams, in order |
| StreamConfigure.RefusedWhen | libcamera/src/android/camera_device.cpp:1704-1730 | a list is refused exactly if a stream has a format without a pixel format, asks for a rotation, or is a second one of format 0x21 |
| StreamConfigure.DirectListServes | libcamera/src/android/camera_device.cpp:1729-1738 | each of them serves one stream, Direct, in its size and in the pixel format the camera has for its format; every stream but the JPEG one is served so, once |
| StreamConfigure.AttachJpeg | libcamera/src/android/camera_device.cpp:1740-1801 | the JPEG stream is added, Mapped, to the first configuration of its size, or else, Internal, as a new NV12 configuration at the end; all other configurations stay as they are |
| StreamConfigure.AttachedServes | libcamera/src/android/camera_device.cpp:1740-1801 | it adds just that reference; a Mapped stream comes beside a Direct one of its size, an Internal one alone |
| StreamConfigure.EmitStreams | libcamera/src/android/camera_device.cpp:1803-1812 | one CameraStream for each stream served, in the order of the configurations, its index the configuration that serves it |
| StreamConfigure.BagPermutes | libcamera/src/android/camera_device.cpp:1803-1812 | sorting the configurations does not change which streams are served |
| StreamConfigure.RequestedOnce | libcamera/src/android/camera_device.cpp:1685-1738 | each Android stream is served as often as it is requested |
| StreamConfigure.ConfiguredStreams | libcamera/src/android/camera_device.cpp:1804-1812 | there is one configuration for each Direct stream, and one more for an Internal one; each index names a configuration of the stream's own width and height, in its pixel format or, if Internal, NV12; a Mapped JPEG shares it with a Direct stream; at most the JPEG stream is not Direct; priv leads back to the stream |
| StreamConfigure.CameraDevice.ConfigureStreams | libcamera/src/android/camera_device.cpp:1643-1812 | validation is reached exactly for acceptable lists; then the configurations are those offered, in the order promised by the sort, with one CameraStream for each stream served and the reserved storage exactly full |
| Resolutions.Divided | libcamera/src/android/camera_device.cpp:576-591 | the loop terminates with the divider within 32 bits, and lists exactly the halved sizes of at least 320x240 |
| Resolutions.Unique | libcamera/src/android/camera_device.cpp:596-597 | dropping equal neighbours leaves each size once, strictly ascending |
| Resolutions.Resolutions | libcamera/src/android/camera_device.cpp:571-597 | the list has exactly the supported sizes, each once, strictly ascending, the maximum last |
| Resolutions.SupportedWhen | libcamera/src/android/camera_device.cpp:571-597 | the supported sizes are the maximum, 320x240, 640x480, 1280x720 and 1920x1080 where smaller, and the halved sizes of at least 320x240 |
| Resolutions.HalvedOnce | libcamera/src/android/camera_device.cpp:576-591 | each halved size has half the width and half the height of the one before it |
| LibcameraApp.MakeRequests | libcamera_app.hpp:544-574 | the i-th request has the i-th buffer of every stream; it fails exactly if some stream has fewer buffers than the first |
| LibcameraApp.RowsAreDisjoint | libcamera_app.hpp:544-574 | no two requests share a buffer |
| LibcameraApp.RowsStartTheLoop | libcamera_app.hpp:544-574 | what makeRequests makes satisfies the invariant of the circulation |
| LibcameraApp.App.FreeRequest | libcamera_app.hpp:580-586 | the first half of requestComplete frees the request as one step, and hands on the buffers it held |
| LibcameraApp.App.PostMessage | libcamera_app.hpp:460-469 | posting puts the message at the end of the queue and changes nothing else |
| LibcameraApp.App.WaitMessage | libcamera_app.hpp:470-477 | waiting hands out the oldest message |
| LibcameraApp.App.TakeRequest | libcamera_app.hpp:409-424 | taking a request is the step of the loop, and finds none exactly if the list is empty |
| LibcameraApp.App.SubmitRequest | libcamera_app.hpp:426-443 | it throws exactly if the request still holds a buffer for one of the streams; otherwise the request holds the new buffers and goes to the camera |
| LibcameraApp.AddBuffers | libcamera_app.hpp:426-430 | the loop adds every buffer, or throws exactly at a stream that the request has already |
| LibcameraApp.AddingNeverFails | libcamera_app.hpp:409-443 | in every run from makeRequests on a request about to be submitted holds no buffers, so adding never throws, and one with the camera holds just the set it was submitted with |
| LibcameraApp.App.StopCamera | libcamera_app.hpp:354-371 | stopping empties both queues and nothing else |
| RequestLoop.Circulation | libcamera_app.hpp:409-597 | in every interleaving there are as many free requests as buffer sets on their way back, nothing is lost or doubled, and the warning is never given |
| RequestOrder.MessagesInOrder | libcamera_app.hpp:460-477 | over any run consumers get the buffer sets in the order in which they were posted; the others are still in the queue, in order |
| RequestOrder.RequestsInOrder | libcamera_app.hpp:409-424 | requests are used again in the order in which they were freed |
| RequestOrder.FromTheStart | libcamera_app.hpp:409-597 | from the start, what was posted is what was handed out and what is still queued |
| RequestLoop.NeverOutOfRequests | libcamera_app.hpp:409-424 | whoever hands back a buffer set finds a free request |
| RequestLoop.NeverStuck | libcamera_app.hpp:409-597 | while there is a buffer set some step is possible |
| RequestLoop.BufferInOnePlace | libcamera_app.hpp:409-597 | a buffer is in exactly one place, and sets paired at the start are never mixed |
| RequestLoop.RequestInOnePlace | libcamera_app.hpp:409-597 | a request is free, with the camera or being queued, one of them |
| RequestLoop.RestartIsClean | libcamera_app.hpp:354-371 | a restart satisfies the invariant exactly if nothing was outstanding |
| Restarts.RestartWarns | libcamera_app.hpp:354-424 | after a restart some run gives the warning exactly if a completion was in transit or a buffer set held |
| Restarts.RestartDoubles | libcamera_app.hpp:354-371 | a buffer set is there once for the new requests, and once more for each half-queued request, completion in transit and holder that has it |
| Restarts.RestartGoesWrong | libcamera_app.hpp:354-424 | a run from the start to the warning, with one restart |
| GstAllocator.PrepareKeeps | libcamera/src/gstreamer/gstlibcameraallocator.cpp:213-236 | taking a frame keeps the invariant exactly if it has a plane |
| GstAllocator.ReleaseKeeps | libcamera/src/gstreamer/gstlibcameraallocator.cpp:106-127 | returning a plane keeps the invariant |
| GstAllocator.PoolHolds | libcamera/src/gstreamer/gstlibcameraallocator.cpp:106-236 | after any interleaving a frame is in its queue, once, exactly if none of its planes is out; the count is the planes out; pooled and leased frames add up to those allocated; extra references equal the planes out |
| GstClasses.LibcameraAllocator.PrepareBuffer | libcamera/src/gstreamer/gstlibcameraallocator.cpp:213-236 | it succeeds exactly if the stream has a frame ready, takes the first and appends all its planes, each once and in order, counted and referenced |
| GstClasses.LibcameraAllocator.ReleaseMemory | libcamera/src/gstreamer/gstlibcameraallocator.cpp:106-127 | one plane less is out, and with the last the frame joins the queue |
| GstClasses.LibcameraAllocator.constructor | libcamera/src/gstreamer/gstlibcameraallocator.cpp:179-211 | a new allocator satisfies the invariant, every frame in the queue of its stream |
| GstPool.NewPoolInv | libcamera/src/gstreamer/gstlibcamerapool.cpp:114-129 | a new pool satisfies the invariant of the pool |
| GstPool.RunKeepsPool | libcamera/src/gstreamer/gstlibcamerapool.cpp:34-73 | over any interleaving of the halves of acquires, resets, releases, planes coming back and other streams, no GstBuffer is lost and each leased one holds a frame with planes out |
| GstPool.FreeAtMostQueued | libcamera/src/gstreamer/gstlibcamerapool.cpp:34-73 | there are at most as many free frames as buffers queued, being acquired or being released |
| GstPool.AcquireExact | libcamera/src/gstreamer/gstlibcamerapool.cpp:34-50 | with no buffer being acquired or released, an acquire succeeds exactly if some frame has all its planes back |
| GstPool.AcquireFails | libcamera/src/gstreamer/gstlibcamerapool.cpp:34-73 | the second half of an acquire succeeds exactly if a frame is free at that moment; the first half fails although one is free only while another acquire or a release is under way |
| GstPool.AcquireInBetween | libcamera/src/gstreamer/gstlibcamerapool.cpp:34-73 | both happen: a run for each |
| GstPool.FailedAcquire | libcamera/src/gstreamer/gstlibcamerapool.cpp:43-46 | a failed acquire leaves the same buffers queued, and all else as it was |
| GstOrder.BuffersInOrder | libcamera/src/gstreamer/gstlibcamerapool.cpp:34-73 | over any interleaving buffers are taken in the order in which they were released or put back |
| GstOrder.FramesInOrder | libcamera/src/gstreamer/gstlibcameraallocator.cpp:106-236 | the frames of a stream are leased in the order in which their last planes came back |
| GstClasses.LibcameraPool.AcquireBuffer | libcamera/src/gstreamer/gstlibcamerapool.cpp:34-50 | alone it succeeds exactly if a buffer is queued and a frame is free |
| GstClasses.LibcameraPool.PopBuffer | libcamera/src/gstreamer/gstlibcamerapool.cpp:38-41 | the oldest buffer is taken in hand, or none if the queue is empty |
| GstClasses.LibcameraPool.UseBuffer | libcamera/src/gstreamer/gstlibcamerapool.cpp:43-50 | a buffer in hand is leased with the first free frame, or goes to the back of the queue |
| GstClasses.LibcameraPool.ReleaseBuffer | libcamera/src/gstreamer/gstlibcamerapool.cpp:63-73 | the buffer is queued, and elements are notified exactly if the queue was empty |
| Capture.LeastBuffers | libcamera/src/cam/capture.cpp:72-84 | the least number of buffers of any stream |
| Capture.MakeRequests | libcamera/src/cam/capture.cpp:91-116 | request i has the i-th buffer of every stream |
| CaptureLoop.RunKeeps | libcamera/src/cam/capture.cpp:124-228 | in every interleaving each request is in one place, those in the camera, in calls or refused are exactly those queued and not captured, at most the limit is queued, and each call has its callback |
| CaptureLoop.NeverStuck | libcamera/src/cam/capture.cpp:131-228 | below the limit, with a request and none refused, something is under way |
| CaptureLoop.ExitIsClean | libcamera/src/cam/capture.cpp:220-224 | when the loop is left, exactly the limit is captured and nothing is outstanding |
| CaptureLoop.LeavesWhen | libcamera/src/cam/capture.cpp:226-228 | a capture that can go no further has left its loop exactly if no request was refused |
| CaptureRefused.RefusedNeverLeaves | libcamera/src/cam/capture.cpp:156-228 | a run from the start in which a request is refused, one frame of two is captured, and the loop is never left |
| CaptureLoop.RunLength | libcamera/src/cam/capture.cpp:156-228 | the distance to the end falls by one with every step |
| CaptureLoop.RefusedAtStart | libcamera/src/cam/capture.cpp:131-138 | a request refused while the capture is started, below the limit, ends it with nothing captured more |
| CaptureLoop.QueuedAtStart | libcamera/src/cam/capture.cpp:131-164 | the starting loop queues the requests in their order, one more counted for each |
| CaptureLoop.FramesInOrder | libcamera/src/cam/event_loop.cpp:51-82 | completed frames are reported in the order of completion, none lost |
| CaptureLoop.CapturesCounted | libcamera/src/cam/capture.cpp:220-221 | captureCount_ is the number of frames reported, modulo 2^32 |
| CaptureLoop.CaptureRun | libcamera/src/cam/capture.cpp:131-228 | a whole capture ends after exactly n + 3 * limit steps with exactly `limit` frames, in order |
| Capture.EventLoop.NextCall | libcamera/src/cam/event_loop.cpp:67-79 | the oldest call is taken, if there is one |
| Capture.CaptureTool.QueueRequest | libcamera/src/cam/capture.cpp:156-164 | queueRequest is the step of the specification; it returns an error exactly if it tried and was refused |
| Capture.CaptureTool.StartNext | libcamera/src/cam/capture.cpp:131-138 | one round of the starting loop is its step, and an error ends the capture |
| Capture.CaptureTool.RequestComplete | libcamera/src/cam/capture.cpp:166-176 | a completed request becomes a deferred call; a cancelled one does not |
| Capture.CaptureTool.ProcessRequest | libcamera/src/cam/capture.cpp:220-228 | a processed request leaves the loop at the limit, else goes round again |
| Capture.CaptureTool.DispatchCall | libcamera/src/cam/event_loop.cpp:67-82 | one dispatch is the step of the specification |
| LiveRuns.RunKeeps | kcamera.c:133-405 | in every interleaving from the start the frame in the slot is nowhere else, and the frames delivered are exactly those with that fate, in the order of capture, with their time stamps |
| LiveSlot.DeliveredAscend | kcamera.c:255-291 | delivered frames are distinct captured ones, in the order of capture |
| LiveRuns.FatesAreFinal | kcamera.c:193-197 | a frame that left the slot is never freed or delivered again, in any run from the start |
| LiveLatency.StreamingFreshens | kcamera.c:345-384 | a frame seen while streaming leaves a slot at most m_maxLatency old |
| LiveLatency.LateWhen | kcamera.c:255-384 | a frame delivered at the end of any run is older than m_maxLatency exactly if the newest frame seen since the start came during a recording and is stamped that much later |
| LiveLatency.StaleDelivery | kcamera.c:255-405 | a run from the start that delivers such a frame, for every latency and every later stamp |
| LiveLatency.DeliveredInTime | kcamera.c:255-384 | a frame delivered in a run without recorded frames is at most m_maxLatency older than the newest |
| LiveStops.SignalledStop | kcamera.c:178-211 | a signalled stop leaves the slot empty, whatever stop was under way |
| LiveStops.StaysQuiet | kcamera.c:178-405 | the slot stays empty, and nothing is delivered, until the next kcStart |
| LiveStops.ConsumerIsServed | kcamera.c:270-283 | a waiting consumer can go on after the next frame exactly if there is memory for it or the slot's frame is kept |
| LiveStops.IdleCameraStops | kcamera.c:325-329 | a frame that finds a streaming camera not asked for more than 5000000 microseconds leads to a stop that empties the slot |
| LiveLaws.StopsWhen | kcamera.c:321-329 | with memory available a frame stops the camera exactly if nothing is recorded, a question has been asked, and the last was more than 5000000 microseconds ago, counted modulo 2^32 |
| LiveLaws.AskedInTime | kcamera.c:255-384 | a running camera with an empty slot, asked at t, puts the next frame within five seconds into the slot, and counts from t |
| LiveLaws.SlotAfter | kcamera.c:331-394 | while streaming the frame in the slot stays exactly as long as it is not more than m_maxLatency older than the new one, which else takes its place with its stamp |
| LiveLaws.EndsRecordingWhen | kcamera.c:355-397 | a recorded frame ends the recording exactly without memory, when the list answers negatively or when the reserve is used up |
| LiveLaws.RecordingEnds | kcamera.c:370-402 | so a recording ends with the frame at which its list reaches the duration, and the camera runs on |
| LiveLaws.FateOfSlot | kcamera.c:133-384 | the frame in the slot is freed by a signalled stop or a newer frame, dropped by kcStart, and else the consumer's that takes it |
| LiveLaws.EachServedOnce | kcamera.c:255-291 | every question is answered once or still waiting |
| LiveLaws.DueIsDone | kcamera.c:398-405 | the stop a frame asks for is done once, and empties the slot |
| LiveLaws.StopJoins | kcamera.c:178-211 | after another thread's stop none is under way |
| LiveStamps.FirstStamp | kcamera.c:331-336 | the offset is set by the first frame stamped below 2^63, which gets stamp 0 |
| LiveStamps.StampsKeepSpans | kcamera.c:331-336 | from then on stamps differ as the camera's do |
| KCamera.Camera.FrameData | kcamera.c:315-405 | the locked region is its step; it asks for a stop exactly after more than 5000000 microseconds without a question while streaming, or without memory, and for the end of a recording exactly in the three cases |
| KCamera.Camera.StopInternal | kcamera.c:178-211 | stopping is its step; nothing if one is under way |
| KCamera.Camera.Start | kcamera.c:133-154 | starting resets slot, offset and timer |
| KCamera.Camera.AskForFrame | kcamera.c:265-268 | asking resets the timer |
| KCamera.Camera.TakeFrame | kcamera.c:274-290 | the slot's frame is returned and the slot emptied; none only if the camera has stopped |
| KCamera.Camera.StartRecord | kcamera.c:512-524 | -1 exactly if a recording is on |
| EncoderQueues.EchoIsSame | kencoder/h264_encoder.cpp:250-303 | splitting and joining gives any time stamp back, negative ones too, exactly if its seconds fit time_t |
| EncoderQueues.SplitIsTimeval | kencoder/h264_encoder.cpp:250-251 | the two parts given to the device make up the time stamp, with less than a million microseconds of its sign |
| EncoderQueues.RunKeeps | kencoder/h264_encoder.cpp:229-356 | from the start and in every interleaving, for any device that only returns what it got, each input and each capture buffer is in exactly one place |
| EncoderQueues.ThrowsWhen | kencoder/h264_encoder.cpp:237-241 | EncodeBuffer finds no buffer exactly if each is in hand, with the device or was refused |
| EncoderQueues.RefusedIsOut | kencoder/h264_encoder.cpp:243-275 | an input buffer that the device refuses is not available again |
| EncoderQueues.RefusedStays | kencoder/h264_encoder.cpp:229-356 | over any run no refused buffer comes back |
| EncoderLine.RunLine | kencoder/h264_encoder.cpp:229-341 | with a device that works in turn, the time stamps received and under way are those submitted, in order |
| EncoderLine.StampsAccounted | kencoder/h264_encoder.cpp:229-275 | in any interleaving the time stamps given to EncodeBuffer are those that the device accepted, those it refused and those in hand |
| EncoderLine.FramesKeepTheirTimes | kencoder/h264_encoder.cpp:229-341 | from the start, with frames offered to the device in turn, the stamps given to EncodeBuffer are, in order, those offered and those in hand; the accepted ones leave GetOutput in order and unchanged, or are under way |
| EncoderLine.EveryFrameComesOut | kencoder/h264_encoder.cpp:229-341 | with none refused, what came out, is under way and in hand is what EncodeBuffer was given |
| H264Encoder.Encoder264.TakeBuffer | kencoder/h264_encoder.cpp:234-242 | it throws exactly if no buffer is available; else the oldest one is in hand with the time stamp given |
| H264Encoder.Encoder264.QueueBuffer | kencoder/h264_encoder.cpp:243-258 | what is queued has the index and the split time stamp of the specification |
| H264Encoder.Encoder264.InputDone | kencoder/h264_encoder.cpp:282-288 | a finished input buffer is available again |
| H264Encoder.Encoder264.PushOutput | kencoder/h264_encoder.cpp:297-313 | an encoded buffer is queued for the application with the joined time stamp |
| H264Encoder.Encoder264.TakeOutput | kencoder/h264_encoder.cpp:320-341 | the oldest output if there is one, else a wait; after a wait abort ends it, although an output may be there |
| H264Encoder.Encoder264.FinishOutput | kencoder/h264_encoder.cpp:343-356 | a capture buffer the application held is with the device again exactly if the device takes it, and nowhere else |
| EncoderQueues.GivenBack | kencoder/h264_encoder.cpp:343-356 | so each buffer stays in one place |
| Texts.SplitJoin | libcamera/src/cam/options.cpp:155-160 | splitting at a separator undoes joining |
| KeyValue.KeylessSayNothing | libcamera/src/cam/options.cpp:162-180 | empty pieces and pieces without a key mean nothing |
| KeyValue.ExtraCommas | libcamera/src/cam/options.cpp:159-164 | a comma at either end or beside another changes nothing |
| KeyValue.ValidWhen | libcamera/src/cam/options.cpp:178-208 | the result is valid exactly if every piece is acceptable |
| KeyValue.AcceptedWhen | libcamera/src/cam/options.cpp:79-123 | a value is accepted exactly if the option is known, may have it, and, for an integer, strtoul reads all of it; the number is the low 32 bits of what it reads |
| KeyValue.LastWins | libcamera/src/cam/options.cpp:117-120 | then each key has the value of its last piece |
| KeyValue.NoTextDropped | libcamera/src/cam/options.cpp:132-204 | with options registered as addOption allows, a stored value is what the text given last was read as, and a value without content stands for no text |
| KeyValue.InvalidMeaning | libcamera/src/cam/options.cpp:182-204 | an invalid result holds the values before the first unacceptable piece |
| KeyValue.RoundTrip | libcamera/src/cam/options.cpp:151-209 | string options written as key=value pairs parse back to their map, exactly if each is known and permitted |
| KeyValue.MapOfListing | libcamera/src/cam/options.cpp:151-209 | so any map can be written and read back, in any order of its keys |
| KeyValueParsers.KeyValueParser.Parse | libcamera/src/cam/options.cpp:151-209 | the pointer-advancing loop terminates and computes the meaning of the pieces; it drops no text |
| KeyValueParsers.KeyValueParser.ParsePair | libcamera/src/cam/options.cpp:162-204 | one piece adds its value, nothing, or makes the result invalid |
| KeyValueParsers.KeyValueParser.AddOption | libcamera/src/cam/options.cpp:132-149 | an option is registered exactly with a new name, a help text, and a type if it takes a value, which all options then have |
| HalIds.RunKeeps | libcamera/src/android/camera_hal_manager.cpp:84-172 | over any history from the start internal ids run from 0 and external ones from 1000 in order of first success, and each live device has its camera's id |
| HalSuccesses.IdsOfSuccesses | libcamera/src/android/camera_hal_manager.cpp:84-135 | over any history from the start a name has an id exactly if some addition of it succeeded; the counters count those names; internal ids run from 0 and external ones from 1000 in the order of the first success |
| HalSuccesses.AddedFields | libcamera/src/android/camera_hal_manager.cpp:117-142 | a failed addition leaves ids, counters, devices and notifications as they were; a successful one adds the device with its id and tells of it once callbacks are set |
| HalSuccesses.RemovedFields | libcamera/src/android/camera_hal_manager.cpp:144-172 | a removal takes away the camera's device and no other, keeps all ids, and is told exactly for an external id |
| HalSuccesses.AnnouncedWhen | libcamera/src/android/camera_hal_manager.cpp:224-244 | setting the callbacks tells of exactly the external devices present |
| HalIds.IdsAreUnique | libcamera/src/android/camera_hal_manager.cpp:92-116 | ids are unique exactly without more than 1000 internal cameras or without an external one |
| HalCollisions.IdsCollide | libcamera/src/android/camera_hal_manager.cpp:92-116 | a history after which an internal and an external camera are live with one id |
| HalIds.IdsInUse | libcamera/src/android/camera_hal_manager.cpp:110-133 | the ids given out are exactly those below the two counters |
| HalIds.IdsStay | libcamera/src/android/camera_hal_manager.cpp:100-102 | no id ever changes |
| HalIds.ComesBack | libcamera/src/android/camera_hal_manager.cpp:100-135 | a camera that comes back after any history has its old id and uses up none |
| HalIds.DeviceIsFound | libcamera/src/android/camera_hal_manager.cpp:183-193 | with unique ids no two live devices share one, and looking it up finds the device |
| HalIds.FrameworkKnows | libcamera/src/android/camera_hal_manager.cpp:137-244 | with unique ids the framework, once it has callbacks, knows exactly the live external cameras |
| HalIds.RemovalNeedsCallbacks | libcamera/src/android/camera_hal_manager.cpp:159-162 | a removal uses the callbacks exactly for a live camera that got an external id |
| HalIds.RemovedTooEarly | libcamera/src/android/camera_hal_manager.cpp:159-162 | which may be before there are any |
| CameraHal.CameraHalManager.CameraAdded | libcamera/src/android/camera_hal_manager.cpp:84-142 | adding is its step, notification included; a failed initialization changes neither ids nor counters nor cameras, and tells nothing |
| CameraHal.CameraHalManager.CameraRemoved | libcamera/src/android/camera_hal_manager.cpp:144-172 | removing is its step, notification included; without callbacks it is undefined exactly for a live camera that needs them |
| CameraHal.CameraHalManager.DeviceFromHalId | libcamera/src/android/camera_hal_manager.cpp:183-193 | the first device with the id, if there is one |
| HalIds.DeviceIsFirst | libcamera/src/android/camera_hal_manager.cpp:183-193 | the look-up of the specification gives the first one |
| CameraHal.CameraHalManager.SetCallbacks | libcamera/src/android/camera_hal_manager.cpp:224-244 | every external camera found before is announced |
| StableSorts.SortedIsStable | libcamera/utils/checkstyle.py:663 | the sorted run is in order, lines of equal paths in their old order |
| StableSorts.SortedIsTheOne | libcamera/utils/checkstyle.py:663 | and there is no other such list |
| StableSorts.FirstDifference | libcamera/utils/checkstyle.py:663 | of two paths the one with the smaller character at the first difference comes first, and a path before every continuation of it |
| IncludeOrder.IncludePath | libcamera/utils/checkstyle.py:643 | the path of an include line is what stands between the delimiters |
| IncludeOrder.IncludeForm | libcamera/utils/checkstyle.py:643 | every line recognized has that form |
| IncludeOrder.RunsAreSorted | libcamera/utils/checkstyle.py:650-676 | each maximal run of includes comes out sorted by path, and what is around it is formatted by itself |
| IncludeOrder.OthersStay | libcamera/utils/checkstyle.py:660-668 | every other line keeps its exact position |
| IncludeOrder.FormatContents | libcamera/utils/checkstyle.py:646-678 | the output lines are a permutation of the input lines |
| IncludeOrder.FormattedTwice | libcamera/utils/checkstyle.py:646-678 | formatting twice is formatting once, on lines |
| IncludeOrder.FormatTwice | libcamera/utils/checkstyle.py:646-678 | and on whole texts |
| TidyIncludes.LeftAloneWhen | libcamera/utils/checkstyle.py:646-678 | a text is left as it is exactly if no two include lines that follow each other directly are out of order |
| IncludeOrder.FormatText | libcamera/utils/checkstyle.py:646-678 | the loop with its stash of includes computes that |
| Diffs.HeaderRead | libcamera/utils/checkstyle.py:91-99 | a header gives the first lines of both sides, with counts or without |
| Diffs.HeaderForm | libcamera/utils/checkstyle.py:91-99 | every line taken for a header has that form |
| Diffs.HeaderRoundTrip | libcamera/utils/checkstyle.py:91-99 | line numbers written in decimal are read back |
| Diffs.LinesStored | libcamera/utils/checkstyle.py:146 | a hunk stores the lines of its body in order, each without the newlines at its end |
| Diffs.StrippedIs | libcamera/utils/checkstyle.py:146 | only newlines at the end are stripped, and all of them |
| Diffs.HunkAccounts | libcamera/utils/checkstyle.py:133-146 | each side's numbers run on from its start over its own lines; touched are exactly its marked lines, untouched those in common |
| Diffs.ListedWhen | libcamera/utils/checkstyle.py:133-146 | a number is listed exactly if the line with that number is so marked |
| Diffs.ListedAscend | libcamera/utils/checkstyle.py:133-146 | the numbers listed ascend, within their side |
| Diffs.SideLengths | libcamera/utils/checkstyle.py:86-87 | the length of a side is the number of its lines |
| Diffs.ErrorStays | libcamera/utils/checkstyle.py:161-176 | the first error is not undone by what follows |
| Diffs.ParsesLine | libcamera/utils/checkstyle.py:161-176 | line by line the hunks are those of the sections read so far |
| Diffs.SectionsAre | libcamera/utils/checkstyle.py:161-176 | the sections are the whole diff but for the lines before the first header, cut at each line that begins with @@ and nowhere else |
| DiffHunks.DiffHunk.AppendLine | libcamera/utils/checkstyle.py:133-146 | a line bumps the counters and lists of its side; an empty one is an error and changes nothing |
| DiffHunks.DiffHunk.Intersects | libcamera/utils/checkstyle.py:148-152 | true exactly if one of the lines is touched on the from side |
| DiffHunks.ParseDiff | libcamera/utils/checkstyle.py:161-176 | one hunk for each section of the diff, or the first error in it |

## Left out

- All ioctl, mmap, poll, file and device calls: devices and files are environments or byte sequences.
- The Python, GObject and V4L2 bindings, measured frame rates, metadata tables and the other generators and scripts.
- Condition variables: a wait is a step that is enabled when its condition holds; which waiting thread is woken is open.
- Steps of the protocols interleave in the value specifications; a class method shows one step, so two threads inside one method at a time are not shown by the classes.
- FrameLists.FrameList.AppendFrame: does not model a failing malloc, and asks that the cursor does not point into a node that the append frees, as reading it afterwards would be undefined.
- FrameLists.FrameList.DelayStart: asks that the cursor does not point into the frame held back that it frees; reading it afterwards would be undefined.
- FrameLists.FrameList.TrimWindow: asks that the cursor does not point into a node that it frees, likewise.
- FrameNodes.NodeChain.TrimBefore: asks the same of the nodes that its loop frees.
- FrameNodes.NodeChain.FreeFront: asks the same of the front node.
- FrameLists.FrameList.FlistVerify: does not model what it prints.
- RecordFiles.Save: does not model write errors or a file that cannot be opened; the lock is released between frames, and frames appended meanwhile are not shown here (FrameCursor.ReadsAreContiguous says what a reader gets then).
- List lengths are taken to be below 2^32, and time stamps below 2^63 where a theorem on runs says so.
- Changes of start_shift, duration or maximum latency during a run.
- FrameRuns.PreRollRefinement: takes time stamps in order, as the camera gives them.
- FrameDelays.DelayedRun: takes time stamps in order, as the camera gives them.
- Sorts.Sort: std::sort is modelled as some sorted permutation; nothing depends on which.
- A PixelFormat is one number that orders as fourcc and then modifier do.
- StreamConfigure.CameraDevice.ConfigureStreams: does not model usage flags, the validation itself or the buffers allocated after it.
- The format map of initializeStreamConfigurations: it is what the camera's answers make it.
- LibcameraApp.MakeRequests: asks for at least one stream, as the loop of the source does not end for an empty configuration.
- LibcameraApp.App.SubmitRequest: does not model a camera that refuses the request, nor the controls.
- Cancelled requests: they come only once the camera is stopped.
- GstClasses.LibcameraAllocator.PrepareBuffer: frames are indices, not objects; their memory is not modelled.
- GstClasses.LibcameraPool.AcquireBuffer: shows an acquire with nothing in between; the interleavings of its halves are in GstPool.
- Capture.CaptureTool.ProcessRequest: does not model the frame's printout or the buffer writer.
- KCamera.Camera.StopInternal: the flag that a stop is under way is set in the same step as the rest; joining the camera thread is not modelled.
- LiveStops.ConsumerIsServed: says that the wait can end, not which of several consumers gets the frame.
- KCamera.Camera.FrameData: does not model the filter of the frame rate, a floating-point average that decides nothing; a frame is its number and time stamp, and flistAppend's answer is a parameter here.
- EncoderLine.FramesKeepTheirTimes: the device gives one output for each input; the bitstream is not modelled.
- H264Encoder.Encoder264.constructor: the device grants at most the buffers asked for, else the arrays of the class would not hold them.
- KeyValueParsers.KeyValueParser.Parse: strtoul is a parameter; options of a key-value type, which have no parser to go to, and array options are not part of this model.
- HAL camera counters do not wrap at 2^32; opening a camera and its information are left out.
- Diffs.HunkAccounts: line texts are compared by their first character, as the source does; printing a hunk is left out.
