# Variadic futures and the buffers beside them, in Dafny

This project models the concurrent core of the variadic_future library and the buffer code shipped with its ASIO
example, and proves properties of the model over every input, every run and every interleaving.

**Futures.** A promise and its future share a `Future_storage` without a lock: one thread completes it, another
installs a handler once, and two bits of an atomic byte decide who calls the handler. `FutureStorage` is that
protocol as a state machine over the atomic steps of both threads, including the eight-bit reference count, the union
member that is constructed on demand, completions that throw, and destruction. Its flag `fault` is set by a call through a
missing or destroyed handler, a read of an unconstructed union member, a construction over a living one or over an
installed handler, and an access after the storage is freed, and by nothing else (`FutureStorage.FaultsIff`); `reused` by a second call of a handler; `mismatched` by memory
given back as another type's than it was taken for. Nothing else that C++ leaves undefined is looked for. `Results` holds
the tuples a storage carries and what `then`, `then_expect` and `finally` handlers do with them; `FutureChain` puts
storages in a row. `Join` and `StreamStorage` are the state machines of `join()` and of `Stream_storage`, whose buffer is
guarded by a mutex, from `get_future` to its destructor.

**expected.** `Expected` models the tagged union whose members are constructed, moved and destroyed by hand, and carries out
whole programs on it; `ExpectedVoid` models the specialization for `void`.

**Buffers.** A buffer is a range of an array, a buffer sequence the concatenation of its ranges (`Buffers`), and memory a
map from arrays to contents (`Memories`). On these stand the byte iterator (`BuffersIterators`), the six overloads of
`buffer_copy` (`BufferCopying`), the contiguous stream buffer (`StreamBufs`), the adapters over a vector or string
(`DynamicBuffers`), the bounded queue both implement (`ByteQueues`, `DynamicBufferRuns`), and the flushing half of the
socket stream buffer (`SocketStreamBufs`). These parts of the code correspond to sections [buffer.copy] and
[buffer.reqmts.dynamicbuffer] of clause 16 of the C++ Networking TS, N4771; `expected` names P0323R7 as its standard.

`dafny verify dfyconfig.toml` checks the whole project.

## Where the code does less than its documentation says

- A promise that is move-assigned over releases its storage without failing it, so an installed handler is never called
  (`OverwriteLosesTheCall`); `include/var_future/future.h:216-219` and the library's `README.md:37` promise otherwise for a promise that goes away.
  `CalledExactlyOnce` says exactly when the handler runs.
- The reference count is a `std::uint8_t`. A run is free of faults, with the storage there exactly while it is held, if and
  only if nobody lets go while the count has wrapped to 1 with others left (`SoundIffCounted`); for a run that ends with at
  most 256 holders that means that there were never more (`CountedIffAtMost256`). `TooManyHolders` is a run that goes wrong.
- A handler whose call throws is called again, after its members were moved out of it: the job of `then` fails its result
  with what `dst->fullfill` threw (`include/var_future/impl/then.h:56-70`), and the destructor of a promise whose `set_value`
  threw fails it as unfulfilled (`include/var_future/impl/promise.h:28-32`). `ThrowingCallIsRepeated` is such a run;
  `CalledExactlyOnce` says how often a handler is called in any
  run in which everybody lets go in the end.
- A handler's memory is taken through an allocator for `Handler_t` and given back through one for `Future_handler_iface`
  (`include/var_future/impl/storage_impl.h:126-130,154-159`). That happens in exactly the runs in which an installed handler is
  destroyed (`EveryRunIsSafe`), and in a stream storage likewise (`DestructorNeedsHandler`).
- `callback_` of a stream storage is never initialised: its destructor tests an indeterminate pointer exactly if no handler
  was being installed before it runs (`DestructorNeedsHandler`).
- `basic_streambuf::reserve` moves bytes before it throws and leaves the cursors where they were. A refused prepare or overflow
  therefore keeps the unread bytes, whatever they are, exactly when the get area starts at the front or is no longer than what
  precedes it (`GarbledUnchangedIff`); `RefusedPrepareGarbles` loses a byte.
- A flush that fails after a partial send leaves the sent bytes in the put area, to be sent again. Wire and put area hold the
  accepted characters exactly when the failing flushes of a script sent nothing (`RunScript`); in `FailedFlushRepeats` a byte
  reaches the wire twice.
- `expected<void, E>::swap` constructs one error without destroying the other: lifetimes stay in order exactly when both
  flags were equal (`ExpectedOfVoid.Swap`, `ExpectedOfVoid.CopyAssign`).
- A dynamic buffer over storage longer than its maximum accepts `prepare(0)` and then reports a size above `max_size()`; before
  the first prepare the vector and the string adapter also consume differently (`OversizedStorageIsAccepted`, `ConsumeAgreesIff`).

## Model

| member | source | states |
|---|---|---|
| Results.FirstErrorIsLeftmost | include/var_future/impl/utils.h:49-70 | the error reported for a tuple is that of its leftmost failed field |
| Results.FullfillToFinishFits | include/var_future/impl/utils.h:178-201 | restoring void fields to a list of values gives a well-typed tuple without errors |
| Results.ValuesRoundTrip | include/var_future/impl/utils.h:155-201 | values restored to fields and stripped again come back unchanged, wherever the void fields are |
| Results.FieldsRoundTrip | include/var_future/impl/utils.h:155-201 | an error-free tuple stripped of its void fields and restored comes back unchanged |
| Results.MeaningIsSpelled | include/var_future/impl/utils.h:178-214 | what the three ways to complete a storage mean, field by field: values in the places of the non-void fields, void fields successful, a failure in every field, and nothing else |
| Results.CallbackArguments | include/var_future/impl/then_finally_expect.h:42-59 | finally() and then_expect() callbacks get every field, then() callbacks the values of the non-void fields in order, unless a field failed; then the leftmost error fails the result |
| Results.HandlersSeeOnlyTheMeaning | include/var_future/impl/then.h:45-91 | fullfill and finish make a handler of any kind enqueue the same job whenever they mean the same fields |
| Results.HandleByFields | include/var_future/impl/then_expect.h:46-85 | a handler's fullfill is its finish on the restored fields |
| Results.FailurePropagates | include/var_future/impl/then.h:74-91 | a failed future fails every then() after it with its first error, and no callback runs |
| Results.ErrorReachesHandler | include/var_future/impl/then_expect.h:55-80 | the next then_expect() is the first to be called again, with that error in every field |
| Results.ChainIsEvaluation | include/var_future/impl/then_expect.h:62-80 | a chain of then() and then_expect() ends as the same code with statements and exception handlers would, recovering where that does, and calls the same callbacks with the same arguments |
| FutureStorage.StepKeepsInv | include/var_future/impl/storage_impl.h:33-165 | a step of producer, consumer or a further Storage_ptr breaks the invariant if and only if it lets go of a storage whose count has wrapped |
| FutureStorage.FaultsIff | include/var_future/impl/storage_impl.h:33-165 | in any state a step faults if and only if the storage is gone or the handler or finished_ that it uses is not as it must be |
| FutureStorage.PassesOn | include/var_future/impl/storage_impl.h:42-50 | a call made after the fact passes the stored result on and moves it out, except that a failing producer passes a fresh failure |
| FutureStorage.SoundIffCounted | include/var_future/impl/storage_decl.h:182-193 | in every interleaving nothing faults and the storage is alive exactly while it is held, if and only if nobody let go while the count had wrapped |
| FutureStorage.CountedIffAtMost256 | include/var_future/impl/storage_decl.h:182-223 | a run that ends with at most 256 holders was counted correctly if and only if it never had more |
| FutureStorage.TooManyHolders | include/var_future/impl/storage_decl.h:182-223 | a run in which the first of 257 holders frees the storage and the producer then accesses it |
| FutureStorage.EveryRunIsSafe | include/var_future/impl/storage_impl.h:33-165 | in every correctly counted run nothing faults; the first call brings the producer's result field by field, a second one needs a call that threw, brings that failure in every field and is the one that reuses the handler; the mismatched deallocation happens exactly when an installed handler is destroyed |
| FutureStorage.CalledExactlyOnce | include/var_future/impl/then.h:54-72 | when both sides are through, the handler was called once per completion of the storage: exactly once if and only if it was installed and the promise was overwritten just when a call had thrown; the storage is freed and nothing built in it survives |
| FutureStorage.ThrowingCallIsRepeated | include/var_future/impl/then.h:54-72 | a run in which a call throws, the producer fails the storage, and the spent handler is called again |
| FutureStorage.ConsumerCalls | include/var_future/impl/storage_impl.h:139-143 | a run in which the result waits for the handler and the consumer makes the one call |
| FutureStorage.ProducerCallsLate | include/var_future/impl/storage_impl.h:39-50 | a run in which the handler comes between the producer's two looks at the state and the producer makes the one call |
| FutureStorage.DroppedFutureIsSilent | include/var_future/impl/storage_impl.h:146-165 | a run in which the future is dropped unused: nothing is called and the stored result is destroyed |
| FutureStorage.ScheduleIsInvisible | include/var_future/impl/storage_impl.h:33-51 | the first calls in two schedules of the same completion make a handler of any kind enqueue the same job |
| FutureStorage.OverwriteLosesTheCall | include/var_future/future.h:244-247 | a run in which a promise is move-assigned over ends with an installed handler that was never called |
| FutureStorage.NobodyWaits | include/var_future/impl/storage_impl.h:70-89 | a thread that is not through always has a step to take, whatever the other is doing |
| FutureStorage.WaitFree | include/var_future/impl/storage_impl.h:70-144 | in any correctly counted run each thread is through after at most five steps of its own, the producer after seven if a call threw |
| FutureChain.ChainUnderAnySchedule | include/var_future/impl/future.h:82-115 | what arrives at the end of a chain of storages is the evaluation of its callbacks, however the threads at each storage are scheduled |
| FutureChain.FinallySeesTheResult | include/var_future/impl/then_finally_expect.h:42-59 | the callback of a finally() at the end of such a chain is called with the values of that evaluation, each in its field, or with its errors |
| FutureChain.ChainCanRun | include/var_future/impl/future.h:82-128 | for every chain there are such schedules |
| Join.StepKeepsInv | include/var_future/impl/join.h:34-54 | writing a slot, counting and finishing keep the counter equal to the number of threads that have counted |
| Join.JoinedOnceInOrder | include/var_future/impl/join.h:26-80 | the joined future is finished at most once, with all results in argument order, and exactly once when all threads are through |
| Join.NeverEarly | include/var_future/impl/join.h:34-38 | it is not finished while any input is outstanding |
| Join.EveryRunFinishes | include/var_future/impl/join.h:34-54 | every run has at most 2n + 1 steps, and one that cannot continue has taken them all and finished the joined future |
| StreamStorage.StepKeepsInv | include/var_future/impl/stream/stream_storage_impl.h:48-134 | no step of pushing, closing, installing a handler or letting go breaks the invariant |
| StreamStorage.FaultsIff | include/var_future/impl/stream/stream_storage_impl.h:29-134 | in any state a step faults if and only if the storage is gone, it calls or destroys a handler that is not there, or it pushes on a closed stream |
| StreamStorage.PushIsDirectOnceReady | include/var_future/impl/stream/stream_storage_impl.h:51-58 | once a handler is ready a push calls it without touching the mutex |
| StreamStorage.DeliveredInOrder | include/var_future/impl/stream/stream_storage_impl.h:48-134 | at every point of every interleaving nothing has faulted and the handler has seen a prefix of the values in order, and the close only after all of them |
| StreamStorage.NoDeadlock | include/var_future/impl/stream/stream_storage_impl.h:60-127 | until both threads are through one of them can step |
| StreamStorage.EveryStepCounts | include/var_future/impl/stream/stream_storage_impl.h:48-134 | every step of either thread lowers the number of steps left |
| StreamStorage.EveryRunDeliversAll | include/var_future/impl/stream/stream_storage_impl.h:48-134 | every run is finite, and one that cannot continue has freed the storage and, unless the future was dropped, delivered every value once, in order, and then one close |
| StreamStorage.DestructorNeedsHandler | include/var_future/impl/stream/stream_storage_impl.h:29-39 | the destructor tests an indeterminate callback_ if and only if no handler was being installed, and gives a handler's memory back as another type's otherwise |
| StreamStorage.DroppedStreamFuture | include/var_future/impl/stream/stream_storage_impl.h:29-39 | a run in which the stream future is dropped and the destructor then tests an indeterminate callback_ |
| Expected.Expected.OfValue | include/nonstd/expected.hpp:1214-1221 | constructs a living value and nothing else |
| Expected.Expected.OfError | include/nonstd/expected.hpp:1274-1283 | constructs a living error and nothing else |
| Expected.Expected.CopyOf | include/nonstd/expected.hpp:1103-1113 | constructs the member the source names, equal to it |
| Expected.Expected.MoveOf | include/nonstd/expected.hpp:1115-1128 | constructs the member the source names and leaves that one alive but moved from |
| Expected.Expected.Destroy | include/nonstd/expected.hpp:1361-1365 | destroys exactly the living member |
| Expected.Expected.Swap | include/nonstd/expected.hpp:1464-1486 | exchanges the two states exactly, also with itself, and leaves one living member in each |
| Expected.Expected.CopyAssign | include/nonstd/expected.hpp:1369-1382 | copy and swap is plain assignment, leaking nothing |
| Expected.Expected.MoveAssign | include/nonstd/expected.hpp:1384-1400 | move and swap assigns and leaves the source moved from, except that self-assignment changes nothing |
| Expected.Expected.AssignValue | include/nonstd/expected.hpp:1440-1449 | emplace replaces whatever was there by the value, leaking nothing |
| Expected.Expected.AssignError | include/nonstd/expected.hpp:1416-1426 | assigning an error replaces whatever was there, leaking nothing |
| Expected.ExecuteOne | include/nonstd/expected.hpp:1103-1486 | every command on objects has the effect it has on plain sum values |
| Expected.Execute | include/nonstd/expected.hpp:1103-1486 | any program of constructions, copies, moves, assignments, swaps and destructions behaves as on plain sum values, and leaves one living object more per expected in scope |
| ExpectedVoid.ExpectedOfVoid.Swap | include/nonstd/expected.hpp:1822-1837 | flags and errors are exchanged, but lifetimes stay in order if and only if the flags were equal; otherwise one object too many is alive |
| ExpectedVoid.ExpectedOfVoid.CopyAssign | include/nonstd/expected.hpp:1790-1799 | the target gets the right flag and error; an object is leaked exactly if the flags differed |
| ExpectedVoid.AssignSuccessOverError | include/nonstd/expected.hpp:1778-1799 | success assigned over an error leaves an error that even the destructor does not destroy |
| Buffers.SkipAndLimit | examples/include/asio/buffer.hpp:648-659 | operator+ and buffer(b, max) cover the addresses after a skip and up to a limit, never outside the buffer |
| Buffers.BufferSize | examples/include/asio/buffer.hpp:556-570 | the loop computes the number of bytes of the concatenation |
| Buffers.AddrsOfBuffer | examples/include/asio/buffer.hpp:592-599 | buffer j covers the flat bytes from the sum of the earlier sizes on |
| BuffersIterators.PlaceIsUnique | examples/include/asio/buffers_iterator.hpp:347-351 | among canonical places, equal positions mean equal buffers and offsets |
| BuffersIterators.OrderIsLexicographic | examples/include/asio/buffers_iterator.hpp:315-337 | ordering by position is ordering by buffer, then offset |
| BuffersIterators.PlacesAreSteps | examples/include/asio/buffers_iterator.hpp:353-404 | between canonical places the difference of positions is the number of single increments or decrements |
| BuffersIterators.IteratorLaws | examples/include/asio/buffers_iterator.hpp:256-301 | (it + m) + n == it + (m + n), (it + n) - n == it, a + (b - a) == b |
| BuffersIterators.BuffersIterator.Begin | examples/include/asio/buffers_iterator.hpp:167-184 | a canonical iterator at position 0, past leading empty buffers |
| BuffersIterators.BuffersIterator.End | examples/include/asio/buffers_iterator.hpp:187-203 | a canonical iterator at the total size |
| BuffersIterators.BuffersIterator.Dereference | examples/include/asio/buffers_iterator.hpp:341-345 | the byte its position names in the concatenation |
| BuffersIterators.BuffersIterator.Equal | examples/include/asio/buffers_iterator.hpp:348-351 | comparing positions decides whether position, buffer and offset all agree |
| BuffersIterators.BuffersIterator.DistanceTo | examples/include/asio/buffers_iterator.hpp:488-491 | the number of single steps that leads from one iterator to the other |
| BuffersIterators.BuffersIterator.Less | examples/include/asio/buffers_iterator.hpp:315-319 | the order of the bytes, read off buffers and offsets |
| BuffersIterators.BuffersIterator.Increment | examples/include/asio/buffers_iterator.hpp:354-374 | the assertion holds exactly before the end; the place stays canonical one position on |
| BuffersIterators.BuffersIterator.Decrement | examples/include/asio/buffers_iterator.hpp:377-404 | the assertion holds exactly after the beginning; the place stays canonical one position back |
| BuffersIterators.BuffersIterator.Advance | examples/include/asio/buffers_iterator.hpp:407-485 | the assertions hold exactly for targets in range, and the iterator ends where as many single steps lead |
| BuffersIterators.BuffersIterator.AdvanceBackward | examples/include/asio/buffers_iterator.hpp:442-484 | only the first assertion can fail; the search over empty buffers ends and finds a buffer |
| BuffersIterators.BuffersIterator.Plus | examples/include/asio/buffers_iterator.hpp:270-276 | a new iterator as many steps away, the old one untouched |
| BuffersIterators.BuffersIterator.Index | examples/include/asio/buffers_iterator.hpp:218-223 | the byte n positions on |
| BuffersIterators.Wander | examples/include/asio/buffers_iterator.hpp:226-267 | any series of moves from either end fails at the first one that leaves the sequence, and until then the iterator is canonical at the sum of the moves |
| BuffersIterators.Collect | examples/include/asio/buffers_iterator.hpp:501-515 | walking from begin to end reads the concatenation |
| BufferCopying.BufferCopy1 | examples/include/asio/buffer.hpp:2171-2181 | stores the shorter size of source bytes at the target and changes no other byte |
| BufferCopying.BufferCopyOneOne | examples/include/asio/buffer.hpp:2183-2189 | the flat specification, with the lesser of the sizes |
| BufferCopying.BufferCopyOneOneLimited | examples/include/asio/buffer.hpp:2191-2199 | the flat specification, with the least of the sizes and the limit |
| BufferCopying.BufferCopyOneMany | examples/include/asio/buffer.hpp:2201-2222 | the same, the target shrinking in front while the sources are walked |
| BufferCopying.BufferCopyManyOne | examples/include/asio/buffer.hpp:2224-2245 | the same, the source shrinking in front while the targets are walked |
| BufferCopying.BufferCopyManyMany | examples/include/asio/buffer.hpp:2247-2289 | the same with two cursors, in no more passes than there are buffers on both sides |
| BufferCopying.BufferCopyManyManyLimited | examples/include/asio/buffer.hpp:2291-2337 | the same with a limit; the bound on passes holds although a pass may finish no buffer when the limit is used up |
| BufferCopying.BufferCopy | examples/include/asio/buffer.hpp:2341-2371 | the first k flat target bytes become the first k flat source bytes, k the lesser size; the source and every other byte of memory are unchanged |
| BufferCopying.BufferCopyLimited | examples/include/asio/buffer.hpp:2373-2409 | the same, k the least of the sizes and the limit |
| BufferCopying.CopiedFlat | examples/include/asio/buffer.hpp:2150-2165 | a copy leaves the source intact and the target as copied bytes followed by its old rest |
| BufferCopying.OverloadsAgree | examples/include/asio/buffer.hpp:2183-2337 | copies between sequences over the same addresses leave the same memory, however the sequences are cut and whichever overload runs |
| BufferCopying.GatherScatter | examples/include/asio/buffer.hpp:804-814 | gathering into a flat buffer and scattering again reproduces the flat bytes |
| BufferCopying.Linearise | examples/include/asio/buffer.hpp:804-811 | the documented idiom yields the concatenation |
| BufferCopying.GatherThenScatter | examples/include/asio/buffer.hpp:804-814 | the round trip carried out on arrays, also when the two sequences share memory |
| Memories.OverwritesIsDeterministic | examples/include/asio/buffer.hpp:2171-2181 | the flat specification determines the memory afterwards |
| ByteQueues.FirstInFirstOut | examples/include/asio/basic_streambuf.hpp:43-68 | in any run, what has left followed by what remains is what was there followed by what entered |
| ByteQueues.WithinLimit | examples/include/asio/basic_streambuf.hpp:62-68 | the documented size() <= max_size() holds after every command of a run |
| StreamBufs.GarbledUnchangedIff | examples/include/asio/basic_streambuf.hpp:321-340 | a refused reserve leaves all unread bytes alone if and only if gptr is at the front or at least size() away from it |
| StreamBufs.RefusedPrepareGarbles | examples/include/asio/basic_streambuf.hpp:321-340 | a concrete prepare that throws and turns two unread bytes into twice the second |
| StreamBufs.StreamBuf.constructor | examples/include/asio/basic_streambuf.hpp:131-141 | an empty buffer with ordered cursors within the maximum |
| StreamBufs.StreamBuf.Reserve | examples/include/asio/basic_streambuf.hpp:308-346 | succeeds exactly if size() + n <= max_size(), then keeps the unread bytes and leaves n bytes of room; a refusal garbles them in a stated way |
| StreamBufs.StreamBuf.Prepare | examples/include/asio/basic_streambuf.hpp:214-219 | throws exactly if size() + n > max_size(); otherwise returns n writable bytes after the contents |
| StreamBufs.StreamBuf.Commit | examples/include/asio/basic_streambuf.hpp:233-238 | appends the first bytes of the put area, at most all of them |
| StreamBufs.StreamBuf.Consume | examples/include/asio/basic_streambuf.hpp:247-254 | drops bytes at the front, at most all of them |
| StreamBufs.StreamBuf.Underflow | examples/include/asio/basic_streambuf.hpp:263-274 | peeks at the front and opens the get area up to the last committed byte; eof exactly if empty |
| StreamBufs.StreamBuf.Overflow | examples/include/asio/basic_streambuf.hpp:283-306 | appends one byte, and throws for a byte exactly if size() == max_size() |
| StreamBufs.StreamBuf.ReadSizeHelper | examples/include/asio/basic_streambuf.hpp:353-359 | within the request and the maximum, 512 bytes, or more exactly where the capacity has room for more |
| StreamBufs.PrepareForRead | examples/include/asio/basic_streambuf.hpp:353-359 | that size is never refused by prepare, and is as large as 512 whenever request and room are |
| DynamicBuffers.ConsumeAgreesIff | examples/include/asio/buffer.hpp:1790-1802 | before v1 behaviour is on, the string and vector adapters consume alike for all sizes exactly if the storage is within the maximum |
| DynamicBuffers.DynamicBuffer.Prepare | examples/include/asio/buffer.hpp:1985-1999 | refuses exactly if size() + n > max_size(); the limit holds afterwards exactly if the contents were within it |
| DynamicBuffers.DynamicBuffer.Commit | examples/include/asio/buffer.hpp:2014-2018 | appends the first prepared bytes and discards the rest |
| DynamicBuffers.DynamicBuffer.Consume | examples/include/asio/buffer.hpp:2063-2075 | drops bytes at the front, in both modes |
| DynamicBuffers.OversizedStorageIsAccepted | examples/include/asio/buffer.hpp:1877-1890 | a concrete storage after whose prepare(0) size() exceeds max_size() |
| DynamicBufferRuns.StepStreamBuf | examples/include/asio/basic_streambuf.hpp:214-306 | each command does to the streambuf what it does to the queue, and is refused when it is |
| DynamicBufferRuns.RunStreamBuf | examples/include/asio/basic_streambuf.hpp:131-346 | on every script up to the first refusal the streambuf shows the queue's contents and bytes |
| DynamicBufferRuns.StepDynamicBuffer | examples/include/asio/buffer.hpp:1985-2075 | each command does to a dynamic buffer what it does to the queue, and is refused when it is |
| DynamicBufferRuns.RunDynamicBuffer | examples/include/asio/buffer.hpp:1985-2075 | the same for the dynamic buffers, from any contents within the maximum |
| DynamicBufferRuns.SameOutcome | examples/include/asio/buffer.hpp:1985-2075 | streambuf and dynamic buffer hold the same contents after each command of a script and refuse at the same one |
| SocketStreamBufs.FirstFailureEnds | examples/include/asio/basic_socket_streambuf.hpp:490-523 | the first pass on which clock, send or poll fails ends the call with that error, after exactly the bytes sent before it; without one all bytes go out as soon as enough were taken |
| SocketStreamBufs.PatienceSends | examples/include/asio/basic_socket_streambuf.hpp:490-523 | any pattern of partial sends and retries gets everything out once it holds enough sends |
| SocketStreamBufs.SocketStreamBuf.SendOnce | examples/include/asio/basic_socket_streambuf.hpp:490-523 | one pass puts on the wire what send took, or gives up with the error of the clock, send or poll |
| SocketStreamBufs.SocketStreamBuf.Send | examples/include/asio/basic_socket_streambuf.hpp:490-523 | the loop sends a prefix of what it is offered, all of it exactly on success |
| SocketStreamBufs.SocketStreamBuf.Overflow | examples/include/asio/basic_socket_streambuf.hpp:468-545 | success moves the put area to the wire, accepts the character and returns it; failure sends a prefix, keeps the put area and leaves its error |
| SocketStreamBufs.SocketStreamBuf.SetBufUnbuffered | examples/include/asio/basic_socket_streambuf.hpp:547-558 | unbuffered mode is entered exactly if the put area is empty, losing nothing |
| SocketStreamBufs.BooksOfScript | examples/include/asio/basic_socket_streambuf.hpp:468-558 | the bytes on the wire beyond what was accepted are those sent by the script's failing flushes, counted from the script alone |
| SocketStreamBufs.SocketStreamBuf.Sputc | examples/include/asio/basic_socket_streambuf.hpp:468-540 | a character goes into the put area while there is room, and through overflow otherwise; it is returned on success |
| SocketStreamBufs.RunScript | examples/include/asio/basic_socket_streambuf.hpp:468-558 | if every call succeeds, wire and put area together are what was put; if some fail, that holds of the accepted characters if and only if the script's failing flushes sent nothing, and none is ever lost or reordered |
| SocketStreamBufs.FailedFlushRepeats | examples/include/asio/basic_socket_streambuf.hpp:489-523 | a script whose first byte reaches the wire twice |

## Left out

- Memory order: atomic steps interleave sequentially; the acquire, release and relaxed orders of the reference count are not distinguished.
- Callbacks that destroy or re-enter the promise, future or storage they are called from.
- Callbacks that return a future, `async`, `flatten`, `std_future` and `get`: each finishes a storage or a `std::promise` from a `finally` callback.
- Exceptions: a handler whose construction throws appears as a future that is dropped unused; members of `expected` do not throw; a throwing stream callback is not modelled. A promise whose `set_value` threw is failed by its destructor or overwritten; a caller that completes it again with values, and a second throw, which leaves a destructor and ends the program, are not followed.
- A stream promise that is move-assigned over or never asked for a future; like a promise, it closes nothing then.
- Storage_ptr's copy assignment, which neither releases the old reference nor returns.
- Results.HandlersSeeOnlyTheMeaning: the queue is not modelled; a job stands for what is pushed to it, in order.
- Exact `std::size_t` and `int` wrap-around, as in `pbump(int)`: sizes are naturals, a single buffer's size is bounded by SIZE_MAX, and the v1 sentinel of the dynamic buffers is a separate value.
- `mutable_buffer::operator+=`: buffers are values, so a local one is reassigned; updating a buffer in place that others refer to is not captured.
- Writing through a `buffers_iterator`, and iterators invalidated by a changed sequence.
- `std::vector` growth is any capacity that suffices; `std::streambuf::sputc` is taken from the C++ standard, its other members are not modelled.
- DynamicBuffer_v2 `grow` and `shrink`, commits larger than the last prepare, and commits without a write: they leave the documented preconditions.
- Whole runs of the stream and dynamic buffers are followed up to the first refusal; the single-call contracts also say what a refusal leaves.
- Connecting, `underflow` and the move operations of `basic_socket_streambuf`, and what the oracle's answers depend on.
- Conversions between `expected` types, observers, comparison and hashing: compile-time selection or thin.
- Sockets, timers, executors and the `coroutine` macros: they forward to services or to the preprocessor.
