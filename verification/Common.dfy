/** Types shared by every part of the provisioning model. */
module Common {

  /** A byte buffer together with its length. */
  type Bytes = seq<bv8>

  datatype Option<+T> = None | Some(value: T)

  /** The negative errno values the modelled functions return. */
  datatype Errno =
    | EPERM | ENOENT | EIO | ENOEXEC | ENOMEM | EACCES | EBUSY | ENODEV | EINVAL
    | ENOSPC | ENAMETOOLONG | ENOSYS | EPROTO | ENOTSUP | EALREADY

  datatype Result<+T> = Ok(value: T) | Err(error: Errno)

  /** Status of a call that returns only 0 or -errno. */
  type Status = Result<()>

  const UINT32_MAX := 0xFFFF_FFFF

  type uint32 = n: nat | n <= 0xFFFF_FFFF

  /** The concatenation of a list of buffers. */
  function Concat(chunks: seq<Bytes>): Bytes {
    if chunks == [] then [] else chunks[0] + Concat(chunks[1..])
  }

  lemma {:induction false} ConcatAppend(chunks: seq<Bytes>, last: Bytes)
    ensures Concat(chunks + [last]) == Concat(chunks) + last
  {
    if chunks == [] {
      assert chunks + [last] == [last];
    } else {
      ConcatAppend(chunks[1..], last);
      assert (chunks + [last])[1..] == chunks[1..] + [last];
    }
  }
}
