/** The few .NET runtime notions the core relies on: fixed-width unsigned integers and exceptions. */
module Runtime {

  const UINT32_LIMIT: nat := 0x1_0000_0000
  const UINT64_LIMIT: nat := 0x1_0000_0000_0000_0000

  /** C# `uint` */
  type uint32 = x: int | 0 <= x < UINT32_LIMIT
  /** C# `ulong` */
  type uint64 = x: int | 0 <= x < UINT64_LIMIT

  /** The exceptions the modelled code can raise. */
  datatype Exception =
    | NullReferenceException  // a member accessed through a null reference
    | FormatException         // Convert.ToUInt32 on text that is not a number
    | OverflowException       // Convert.ToUInt32 on a number that does not fit
}
