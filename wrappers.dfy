/** Outcomes of operations that can throw in the original C++: an `Err` carries the
  * exception class the source raises and the reason it raises it. */
module Wrappers {

  /** What went wrong. */
  datatype Why =
    | NotFound              // the register name is not in the address table
    | NoReadPermission      // the permission field lacks 'r'
    | MaskedBlock           // block transfer on a masked register
    | SingleOverrun         // block transfer of more than one word on a "single" register
    | BeyondRange           // offset + size runs past the block's size
    | TransportFailure      // the memory service reported a failed transaction
    | BadArgument           // a parameter outside the range the operation accepts
    | BadVersion            // an unexpected firmware release
    | UnsyncedVfat          // a VFAT that should be used is not in sync
    | BadSize               // a buffer whose size does not match what is required
    | MissingToken          // a tokenised line has fewer tokens than required
    | NoLock                // no clock lock was found
    | BelowMinimum          // a parameter below the smallest accepted value
    | AboveMaximum          // a parameter above the largest accepted value
    | BadType               // an enumeration value outside the declared ones
    | NoData                // a buffer without storage
    | Mismatch              // a read-back that differs from what was written
    | NoFile                // a file that cannot be opened
    | AlignmentOff          // automatic phase alignment reads as disabled

  /** The C++ exception class that carries the failure. */
  datatype Error =
    | RuntimeError(why: Why)
    | RangeError(why: Why)
    | InvalidArgument(why: Why)
    | OutOfRange(why: Why)

  datatype Result<T> = Ok(value: T) | Err(error: Error)

  datatype Option<T> = None | Some(value: T)
}
