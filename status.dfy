/** The two severities of failure in the buffer layer: recoverable errors,
    returned as a status, and faults, raised as exceptions that abort the
    operation. */
module BufferStatus {

  /** A possibly null region pointer: `None` is the null pointer. */
  datatype Option<T> = None | Some(value: T)

  /** Recoverable errors. */
  datatype BufferError =
    | ReadOverflow               // a read asks for more bytes than remain before `size`
    | ReallocNotOwned            // `realloc` on a buffer that does not own its bytes
    | WriteNotOwned              // a write into a buffer that does not own its bytes
    | PreallocatedWriteOverflow  // a fixed-region write longer than the free space

  /** Unrecoverable faults. */
  datatype Fault =
    | OffsetOutOfRange     // `set_offset` past `size` (std::out_of_range)
    | PreallocatedGrowth   // a preallocated buffer asked to grow (BufferStatusException)

  datatype Status = Ok | Err(error: BufferError) | Fatal(fault: Fault)
}
