# TileDB byte-buffer layer in Dafny

This project models the byte-buffer layer of TileDB's storage manager
(`tiledb/sm/buffer/buffer.cc`) and proves properties of the model. The layer has four parts:

- `BufferBase` is a cursor over a byte region. It holds a region pointer, a logical `size` and a read/write `offset`. It can seek, advance with saturation, test for the end, and do two bounds-checked reads.
- `OwningMemoryBuffer` is the growable buffer. Its backing store is `vec_`, and `vec_`'s length is the capacity (`alloced_size`). An `owns_data_` flag marks a buffer that owns its store, and a `preallocated_` flag marks one that may never grow. It offers:
  - `realloc`, `ensure_alloced_size` (the growth policy) and four `write` overloads;
  - `advance_size`, `free_space`, `clear`, `reset_size`, `set_size` and `swap`;
  - copy and move construction and assignment.
- `ConstBuffer` is a read-only view with `nbytes_left_to_read`.
- `PreallocatedBuffer` is a fixed-length, write-only cursor with `free_space` and a bounds-checked `write`.

Failures come in two severities. Recoverable errors are returned as a status. Faults are thrown (`std::out_of_range` from `set_offset`; `BufferStatusException` from `ensure_alloced_size`). Both are modelled as one `Status = Ok | Err(BufferError) | Fatal(Fault)`. A fault leaves the buffer unchanged.

Layout, one module per file:

| file | module | contents |
|---|---|---|
| `status.dfy` | `BufferStatus` | `Status`, the error and fault kinds, `Option` (a possibly null pointer) |
| `bytes.dfy` | `Bytes` | `Zeros`, `Resized` (a `vector::resize`) and `Overwrite` (a `memcpy` into a region) |
| `cursor.dfy` | `Cursor` | `CursorState`, and class `BufferBase` with its seek and read operations |
| `growth.dfy` | `Growth` | the growth policy as a pure decision (`PlanFor`), the doubling target and its lemmas |
| `const_buffer.dfy` | `ConstView` | class `ConstBuffer` |
| `preallocated_buffer.dfy` | `Preallocated` | class `PreallocatedBuffer` |
| `owning_spec.dfy` | `OwningSpec` | the owning buffer's state as a value; the effect of each operation as a function of the state before it; the lemmas stating what each operation guarantees |
| `owning.dfy` | `Owning` | class `OwningMemoryBuffer`. Each method is proved to leave exactly the state its `OwningSpec` function gives. |
| `scenarios.dfy` | `Scenarios` | concrete call sequences on the classes, with their outcomes |

C++ inheritance becomes composition. Each buffer class holds its cursor as `const base: BufferBase`, and an operation on two buffers requires their cursors to be distinct objects.

The region pointer is modelled as a `hasData` flag plus the bytes it reaches. For an owning buffer built by the modelled constructors it is always the backing store: `base.data == vec`, non-null exactly when the store is non-empty.

## Model

| member | source | states |
|---|---|---|
| Cursor.BufferBase.constructor | tiledb/sm/buffer/buffer.cc:57-71 | Without a region: null pointer, size 0, offset 0. Over a region: that region, its full length as the size, offset 0. |
| Cursor.BufferBase.ResetOffset | tiledb/sm/buffer/buffer.cc:103-105 | The offset becomes 0; nothing else changes. |
| Cursor.BufferBase.SetOffset | tiledb/sm/buffer/buffer.cc:107-110 | A position past `size` is the `out_of_range` fault and changes nothing; any other position becomes the offset and nothing else changes (the check is at 145-149). |
| Cursor.BufferBase.AdvanceOffset | tiledb/sm/buffer/buffer.cc:112-119 | The new offset is `min(offset + n, size)`. It never decreases and never passes `size`, and it reaches the end exactly when `n` is at least the bytes left; nothing else changes. |
| Cursor.BufferBase.End | tiledb/sm/buffer/buffer.cc:121-123 | True exactly when no bytes are left to read (`size - offset == 0`). `AdvanceOffset` reaches the end exactly when it advances by at least the bytes left. |
| Cursor.BufferBase.Read | tiledb/sm/buffer/buffer.cc:125-133 | Asking for more than `size - offset` bytes is the read-overflow error, with cursor and destination unchanged. Otherwise the first `n` destination bytes are the `n` bytes at the cursor, the rest of the destination is untouched, and the offset grows by exactly `n`. |
| Cursor.BufferBase.ReadAt | tiledb/sm/buffer/buffer.cc:135-143 | The same bound, checked against the explicit position. On success the `n` bytes at that position are copied, and the cursor never moves. |
| ConstView.ConstBuffer.constructor | tiledb/sm/buffer/buffer.cc:434-436 | A view over the whole region, with its length as the size and the cursor at 0. |
| ConstView.ConstBuffer.FromBuffer | tiledb/sm/buffer/buffer.cc:430-432 | A view over the given buffer's region pointer and size, with the cursor at 0. |
| ConstView.ConstBuffer.NBytesLeftToRead | tiledb/sm/buffer/buffer.cc:438-440 | `offset + r == size`. Nothing is left exactly at the end. |
| Preallocated.PreallocatedBuffer.constructor | tiledb/sm/buffer/buffer.cc:446-448 | A cursor over the supplied region, with the full length as the size and offset 0. |
| Preallocated.PreallocatedBuffer.FreeSpace | tiledb/sm/buffer/buffer.cc:454-456 | `offset + r == size`, so the free space never goes negative. |
| Preallocated.PreallocatedBuffer.Write | tiledb/sm/buffer/buffer.cc:458-466 | A write longer than the free space is the overflow error and changes nothing, with no partial copy. Otherwise the bytes land at the cursor and the offset grows by their count; the size is fixed. |
| Growth.GrowthTarget | tiledb/sm/buffer/buffer.cc:419-421 | The value the doubling loop ends with is at least the request, at least the start, and below twice the request once it had to double. |
| Growth.GrowthTargetIsPowerMultiple | tiledb/sm/buffer/buffer.cc:419-421 | That value is the start times a power of two. |
| Growth.GrowthTargetIsLeast | tiledb/sm/buffer/buffer.cc:419-421 | No smaller power-of-two multiple of the start reaches the request. With the lemma above, the loop yields the least `c * 2^k >= n`. |
| Growth.PlanFor | tiledb/sm/buffer/buffer.cc:411-424 | Refuses exactly a preallocated buffer whose request does not fit. Keeps the capacity of a preallocated buffer or of one that fits. Otherwise grows, starting from the request when the capacity is 0. A request that is not refused fits afterwards, and growth is strict and stays below twice the request. |
| Growth.AppendsGrowGeometrically | tiledb/sm/buffer/buffer.cc:419-424 | After `k >= 1` one-byte appends from empty, the capacity is a power of two in `[k, 2k)`, and the number of reallocations `g` satisfies `2^g < 4k` (logarithmic in `k`). |
| OwningSpec.Wrapping | tiledb/sm/buffer/buffer.cc:173-178 | Wrapping a region gives a non-owning, non-preallocated buffer with no store, whose contents are the region and whose cursor is at 0. |
| OwningSpec.AfterRealloc | tiledb/sm/buffer/buffer.cc:281-293 | `realloc(n)` as a function of the state; its result is a well-formed buffer. |
| OwningSpec.ReallocOutcomes | tiledb/sm/buffer/buffer.cc:281-293 | A non-owning buffer gets the not-owned error and is unchanged. An owning one succeeds and never shrinks: its capacity becomes exactly `max(n, capacity)`, the old bytes stay as a prefix and the rest is zero-filled. Size, offset and flags are kept. |
| OwningSpec.AfterEnsure | tiledb/sm/buffer/buffer.cc:411-424 | `ensure_alloced_size(n)`. It keeps flags, size and offset. On success the capacity holds the request, and a growable owning buffer, or a request that fits, always succeeds. |
| OwningSpec.EnsureOutcomes | tiledb/sm/buffer/buffer.cc:411-424 | The fault is raised exactly for a preallocated buffer asked for more than it holds. A preallocated buffer, or a request that fits, leaves the state unchanged. On success the capacity is the one the policy picks, and the store is the old one zero-filled to it. |
| OwningSpec.GrowthZeroFills | tiledb/sm/buffer/buffer.cc:288 | After the growth, the store is the old store zero-filled to the new capacity. |
| OwningSpec.GrowthKeepsContents | tiledb/sm/buffer/buffer.cc:411-424 | Growing never changes the logically written bytes. |
| OwningSpec.Stored | tiledb/sm/buffer/buffer.cc:379-380 | The copy into a store that already fits, plus the size update: capacity, offset and flags are kept, and the size becomes `max(at + n, size)`. |
| OwningSpec.StoredAtCursor | tiledb/sm/buffer/buffer.cc:362-364 | The same at the cursor, which then moves past the payload. |
| OwningSpec.StoredAtCursorPlaces | tiledb/sm/buffer/buffer.cc:362-364 | Bytes before the cursor and after the payload are kept, the payload sits in between, and the size covers it. |
| OwningSpec.AfterWriteAt | tiledb/sm/buffer/buffer.cc:370-383 | The positional write as a function of the state. |
| OwningSpec.WriteAtOutcomes | tiledb/sm/buffer/buffer.cc:370-383 | A non-owning buffer refuses unchanged, and a preallocated one that would need to grow faults unchanged. Otherwise the payload sits at `at .. at+n` and every other byte is the grown store's. The size becomes `max(at + n, size)` and the offset does not move. |
| OwningSpec.AfterWrite | tiledb/sm/buffer/buffer.cc:353-367 | The write at the cursor as a function of the state. |
| OwningSpec.WriteFailures | tiledb/sm/buffer/buffer.cc:353-367 | Not owning: the not-owned error, unchanged. Any other failure is the preallocated-growth fault, also unchanged. A growable owning buffer always succeeds. |
| OwningSpec.WriteOutcomes | tiledb/sm/buffer/buffer.cc:353-367 | The write succeeds whenever the buffer owns its bytes and may grow or has room. The capacity is the policy's, the offset becomes `offset + n` and the size becomes `max(offset + n, size)`. |
| OwningSpec.WritePlacesPayload | tiledb/sm/buffer/buffer.cc:360-364 | The bytes before the cursor are kept, the payload follows them, and after it come the old bytes and then zeros. |
| OwningSpec.WriteIsWriteAtThenSeek | tiledb/sm/buffer/buffer.cc:353-383 | The cursor write is the positional write at the cursor followed by moving the cursor past the payload. |
| OwningSpec.AfterReadFromView | tiledb/sm/buffer/buffer.cc:345-347 | The view's read into the store at the cursor. Fewer unread bytes than asked is the read error with nothing changed; otherwise both cursors move by `n`. |
| OwningSpec.AfterWriteFromView | tiledb/sm/buffer/buffer.cc:317-333 | `write(ConstBuffer*)` as a function of both states. |
| OwningSpec.WriteFromViewOutcomes | tiledb/sm/buffer/buffer.cc:317-333 | A non-owning buffer refuses. An owning one always succeeds without growing. It copies all unread bytes when they fit, or exactly enough to fill the capacity; both cursors move by the count copied, and the size covers it. |
| OwningSpec.AfterWriteFromViewN | tiledb/sm/buffer/buffer.cc:336-350 | `write(ConstBuffer*, n)` as a function of both states. |
| OwningSpec.WriteFromViewNFailures | tiledb/sm/buffer/buffer.cc:336-350 | A fault changes nothing. A view that is too short gives the read error: the buffer has already grown but holds the same contents, and the view has not moved. |
| OwningSpec.WriteFromViewNIsWrite | tiledb/sm/buffer/buffer.cc:336-367 | With enough unread bytes, the view write is the plain write of the view's next `n` bytes, and the view moves past them exactly when that write succeeds. |
| OwningSpec.WriteFromViewNAfterGrowthIsWrite | tiledb/sm/buffer/buffer.cc:343-364 | After a successful growth, both writes store the same bytes at the same cursor. |
| OwningSpec.CopyOf | tiledb/sm/buffer/buffer.cc:181-191 | A copy of an owning buffer is identical to it. A copy of a non-owning one keeps only the offset and has a null region. |
| OwningSpec.MovedFrom | tiledb/sm/buffer/buffer.cc:207-215 | The moved-from buffer has no region, no store, size and offset 0, and keeps its flags. |
| OwningSpec.Cleared | tiledb/sm/buffer/buffer.cc:245-253 | No contents, null region, offset 0, an empty store, flags kept. The store is released when the buffer owned a non-null region; otherwise it was already empty. |
| OwningSpec.ClearIsIdempotent | tiledb/sm/buffer/buffer.cc:245-253 | Clearing twice is clearing once. |
| OwningSpec.PreallocatedCtor | tiledb/sm/buffer/buffer.cc:162-171 | Corrected constructor: owning and preallocated, exactly `n` zero bytes of capacity, size 0 and offset 0. |
| OwningSpec.PreallocatedCtorAsWritten | tiledb/sm/buffer/buffer.cc:162-171 | As written, every `n > 0` raises the preallocated-growth fault. |
| OwningSpec.PreallocatedCtorAsWrittenRejectsSixteen | tiledb/sm/buffer/buffer.cc:162-171 | Concrete: `n = 16` faults as written, while the corrected constructor has capacity 16. |
| OwningSpec.PreallocatedCeiling | tiledb/sm/buffer/buffer.cc:411-418 | With the corrected constructor, a buffer preallocated to `n` faults, unchanged, on a write of more than `n` bytes, and takes one of at most `n` bytes without changing capacity. |
| OwningSpec.WriteAll | tiledb/sm/buffer/buffer.cc:353-367 | Writes in sequence, stopping at the first failure; the result is well formed. |
| OwningSpec.WriteAtEndAppends | tiledb/sm/buffer/buffer.cc:353-367 | A write at the end of a growable buffer succeeds and appends the payload; offset and size end at the new end. |
| OwningSpec.WritesConcatenate | tiledb/sm/buffer/buffer.cc:353-367 | Any sequence of such writes all succeed, and the contents become the old contents followed by the payloads in order. For three 10-byte payloads on an empty buffer, size and offset are 30. |
| OwningSpec.OneByteAtEnd | tiledb/sm/buffer/buffer.cc:360-364 | One more one-byte append succeeds and takes the capacity one step along the append sequence. |
| OwningSpec.SingleByteWritesFrom | tiledb/sm/buffer/buffer.cc:360-364 | Appending `m` single bytes from size `i` reaches the capacity of `i + m` appends. |
| OwningSpec.SingleByteWritesGrowGeometrically | tiledb/sm/buffer/buffer.cc:419-424 | Byte-by-byte appends to a default buffer follow the capacity sequence bounded by `Growth.AppendsGrowGeometrically`. |
| Owning.OwningMemoryBuffer.constructor | tiledb/sm/buffer/buffer.cc:155-160 | The default buffer: owning, growable, no store, null region. |
| Owning.OwningMemoryBuffer.Preallocated | tiledb/sm/buffer/buffer.cc:162-171 | Leaves exactly the state `OwningSpec.PreallocatedCtor(n)`. |
| Owning.OwningMemoryBuffer.Wrap | tiledb/sm/buffer/buffer.cc:173-178 | Leaves exactly the state `OwningSpec.Wrapping(region)`. |
| Owning.OwningMemoryBuffer.Copy | tiledb/sm/buffer/buffer.cc:180-191 | Leaves exactly `OwningSpec.CopyOf` of the source, with a fresh cursor object. |
| Owning.OwningMemoryBuffer.Move | tiledb/sm/buffer/buffer.cc:206-215 | Takes over the source's whole state, and leaves the source as `OwningSpec.MovedFrom`. |
| Owning.OwningMemoryBuffer.AdvanceSize | tiledb/sm/buffer/buffer.cc:233-237 | The size grows by `n`; nothing else changes. |
| Owning.OwningMemoryBuffer.FreeSpace | tiledb/sm/buffer/buffer.cc:269-273 | `size + r == capacity`. |
| Owning.OwningMemoryBuffer.Clear | tiledb/sm/buffer/buffer.cc:244-253 | Leaves exactly `OwningSpec.Cleared` of the old state. |
| Owning.OwningMemoryBuffer.ResetSize | tiledb/sm/buffer/buffer.cc:295-299 | Size and offset become 0; nothing else changes. |
| Owning.OwningMemoryBuffer.SetSize | tiledb/sm/buffer/buffer.cc:301-304 | The size becomes `n`; nothing else changes, the offset included. |
| Owning.OwningMemoryBuffer.Realloc | tiledb/sm/buffer/buffer.cc:280-293 | Status and new state are `OwningSpec.AfterRealloc` of the old state. |
| Owning.OwningMemoryBuffer.EnsureAllocedSize | tiledb/sm/buffer/buffer.cc:410-424 | Status and new state are `OwningSpec.AfterEnsure`. The doubling loop keeps its eventual result, `GrowthTarget`, invariant. |
| Owning.OwningMemoryBuffer.WriteFromView | tiledb/sm/buffer/buffer.cc:316-333 | Status and both new states are `OwningSpec.AfterWriteFromView`. |
| Owning.OwningMemoryBuffer.WriteFromViewN | tiledb/sm/buffer/buffer.cc:335-350 | Status and both new states are `OwningSpec.AfterWriteFromViewN`. |
| Owning.OwningMemoryBuffer.ReadFromView | tiledb/sm/buffer/buffer.cc:345-347 | The view's read into the store, and the cursor and size update: `OwningSpec.AfterReadFromView`. |
| Owning.OwningMemoryBuffer.Store | tiledb/sm/buffer/buffer.cc:379-380 | The copy and size update: `OwningSpec.Stored`. |
| Owning.OwningMemoryBuffer.StoreAtCursor | tiledb/sm/buffer/buffer.cc:362-364 | The copy at the cursor, and the cursor and size update: `OwningSpec.StoredAtCursor`. |
| Owning.OwningMemoryBuffer.WriteBytes | tiledb/sm/buffer/buffer.cc:352-367 | Status and new state are `OwningSpec.AfterWrite`. |
| Owning.OwningMemoryBuffer.WriteAt | tiledb/sm/buffer/buffer.cc:369-383 | Status and new state are `OwningSpec.AfterWriteAt`. |
| Owning.OwningMemoryBuffer.Swap | tiledb/sm/buffer/buffer.cc:306-314 | The two buffers exchange their whole states. |
| Owning.OwningMemoryBuffer.CopyAssign | tiledb/sm/buffer/buffer.cc:385-399 | A no-op onto itself. Otherwise the target takes `OwningSpec.CopyOf` of the source, and the source is untouched. |
| Owning.OwningMemoryBuffer.MoveAssign | tiledb/sm/buffer/buffer.cc:401-408 | A no-op onto itself. Otherwise the two buffers exchange states. |
| Scenarios.ThreeWrites | tiledb/sm/buffer/buffer.cc:352-367 | Three writes to a default buffer succeed. Size and offset are the total length (30 for three 10-byte payloads), and the contents are the payloads in order. |
| Scenarios.Append | tiledb/sm/buffer/buffer.cc:352-367 | A write at the end of a growable buffer succeeds and appends. |
| Scenarios.SixteenByteRegion | tiledb/sm/buffer/buffer.cc:458-466 | A 16-byte fixed region takes 10 and then 6 bytes, holds exactly them with no free space left, and refuses 1 more with the overflow error. |
| Scenarios.PreallocatedOwningBuffer | tiledb/sm/buffer/buffer.cc:410-418 | With the corrected constructor, an owning buffer preallocated to 16 takes 10 and 6 bytes at capacity 16, and faults on 1 more. |
| Scenarios.ReadPastEnd | tiledb/sm/buffer/buffer.cc:125-133 | A 5-byte view reads its 5 bytes and is at its end; one more byte is the read-overflow error. |
| Scenarios.CopyIsIndependent | tiledb/sm/buffer/buffer.cc:180-191 | Writing to a copy leaves the original's contents as they were. |
| Scenarios.MoveEmptiesSource | tiledb/sm/buffer/buffer.cc:206-215 | After a move, the source is empty and the target holds the bytes. |

## Left out

- The `Alloc` template parameter and the explicit instantiations (`buffer.cc:469-470`). The allocator only decides where memory comes from, so a single `seq<bv8>` store stands for both.
- Pointer identity and raw addresses. The region pointer is a "non-null" flag plus the bytes it reaches, and `memcpy` is a value copy. So the model does not capture aliasing between a buffer's region and memory outside it, nor pointers into the store obtained before a reallocation. A view made from a buffer (`ConstBuffer(Buffer*)`) copies the bytes at construction instead of sharing them.
- The accessors `size`, `data`, `nonconst_data`, `nonconst_unread_data`, `cur_data`, `data(offset)`, `owns_data` and `alloced_size` (`buffer.cc:73-101`, `228-231`, `239-242`, `255-267`, `275-278`, `450-452`). They only return a field or a pointer into the region; the model reads the fields directly (`alloced_size` is `|vec|`).
- `LOG_STATUS` logging, `noexcept` and the `std::exchange` mechanics. Only the status outcome is kept.
- The allocator-taking copy and move constructors (`buffer.cc:193-204`, `217-226`), with an allocator equal to the source's (always so for `std::allocator`). They then behave like the plain ones that the model covers.
- The allocator-taking move constructor with an allocator unequal to the source's (`buffer.cc:217-226`). `vec_(std::move(buff.vec_), alloc)` then moves the bytes into new storage, while `data_` takes the source's old pointer into storage that `buff.vec_` still holds. The region is then not the new buffer's store, and writes reach the source's memory until the next `realloc`. The model has no pointer identity and cannot express this, so it does not cover that case.
- Bit widths. Sizes and offsets are unbounded naturals, not `uint64_t`, so wrap-around is not modelled. Each place where a `uint64_t` subtraction could underflow gets a precondition instead, listed below. `offset <= size` is NOT an invariant of the owning buffer, because `set_size` and the copy constructor can break it.
- Cursor.BufferBase.Read requires `offset <= size` (`buffer.cc:126`).
- Cursor.BufferBase.AdvanceOffset requires `offset <= size` (`buffer.cc:113`).
- Cursor.BufferBase.ReadAt requires `at <= size` (`buffer.cc:137`).
- Owning.OwningMemoryBuffer.FreeSpace requires `size <= capacity`, which the source asserts (`buffer.cc:271`).
- Owning.OwningMemoryBuffer.AdvanceSize requires an owning buffer (asserted at `buffer.cc:235`), and a new size within the store, since a size past it makes later reads undefined.
- Owning.OwningMemoryBuffer.SetSize requires the new size to stay within the region, for the same reason.
- Cursor.BufferBase.Read also requires that the destination, a Dafny array, hold `n` bytes whenever the read succeeds; C++ writes through an unchecked pointer.
- Owning.OwningMemoryBuffer.WriteFromView: the view's `read` at `buffer.cc:328` can never fail, because the count copied is at most the unread bytes. The error it could return is therefore unreachable, and the model does not list it.
- `tiledb/sm/buffer/buffer.h` is not part of this model. `preallocated_` is assumed to default to false in the default, wrapping, copy and move constructors; that default lives in `buffer.h`, which is not modelled.
- `core/src/misc/csv_file.cc`, `core/src/tile/tile_const_cell_iterator.cc` and the C API handle files are not part of this model. They are callers and unrelated plumbing.

Behaviour of the code that a caller might not expect:

- Move assignment (`buffer.cc:401-408`) swaps the two buffers, so the source gets the target's old state rather than being emptied. Only the move constructor empties its source (`Owning.OwningMemoryBuffer.Move`, `OwningSpec.MovedFrom`).
- Copy assignment (`buffer.cc:385-399`) clears the target before the temporary copy is built, rather than mutating it only afterwards.
- A write into a non-owning owning-buffer is a recoverable error status (`WriteNotOwned`), not a fault.
- The preallocating constructor faults for every non-zero size (see Findings).

## Findings

| source | as written | input that shows it | evidently intended | confidence | as-written member | corrected member |
|---|---|---|---|---|---|---|
| tiledb/sm/buffer/buffer.cc:162-171 | The member-initialiser list sets `preallocated_(true)` before the body calls `ensure_alloced_size(size_)` on the still-empty store. The growth policy then refuses, because a preallocated buffer may not grow, and `throw_if_not_ok` is never reached because the policy throws. | `OwningMemoryBuffer(16)`: capacity 0 < 16 on a preallocated buffer raises `BufferStatusException`. | Allocate exactly `size` bytes, then set size 0 and mark the buffer preallocated. | not executed | OwningSpec.PreallocatedCtorAsWritten, OwningSpec.PreallocatedCtorAsWrittenRejectsSixteen | OwningSpec.PreallocatedCtor, Owning.OwningMemoryBuffer.Preallocated |
