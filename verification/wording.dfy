/** Wording shared by the e-mail and the WhatsApp confirmation. */
module Wording {

  /** The seat phrase for a party of one. */
  const OneSeat: string := "your seat"

  /** What follows the seat count in the phrase for a larger party. */
  const PartySeatsSuffix: string := " seats for you and your party"
}
