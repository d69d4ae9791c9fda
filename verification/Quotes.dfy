/** The decoded quote that travels from the packet filter to the instrument book. */
module Quotes {
  import opened Words

  datatype Quote = Quote(
    slot: uint3, side: byte, sequence: uint32, timestamp: uint64, price: uint32, quantity: uint32)

  const NO_QUOTE: Quote := Quote(0, 0, 0, 0, 0, 0)
}
