/** Types shared by every component: optional values, fallible results and machine-width integers. */
module Base {

  datatype Option<+T> = None | Some(value: T)

  /** The program's `TraceableResult`; the error text carries no behaviour, so it is not modelled. */
  datatype Result<+T> = Ok(value: T) | Err

  type byte = x: int | 0 <= x < 0x100

  type u16 = x: int | 0 <= x < 0x1_0000

  type u32 = x: int | 0 <= x < 0x1_0000_0000

  /** The largest packet, and the size of every packet buffer. */
  const ETHERNET_MTU := 1500

  /** The lengths of headers without options. */
  const IPV4_HDR_MIN_LEN := 20
  const TCP_HDR_MIN_LEN: byte := 20

  function Min(x: int, y: int): (m: int)
    ensures m <= x && m <= y && (m == x || m == y)
  {
    if x <= y then x else y
  }

  function Max(x: int, y: int): (m: int)
    ensures m >= x && m >= y && (m == x || m == y)
  {
    if x <= y then y else x
  }
}
