/** The seat phrase appears in both confirmations, worded alike but decided differently: the
    e-mail compares `int(seats)` with 1, the WhatsApp message compares `str(seats)` with "1". */
module SeatPhrases {
  import opened Base
  import opened Values
  import opened Wording
  import Emailer
  import Twilioer

  /** For an integer seat count the two confirmations use the same phrase. */
  lemma PhrasesAgreeOnIntegers(n: int)
    ensures Emailer.SeatsLine(Int(n)) == Ok(Twilioer.SeatText(Int(n)))
  {
    StrOfIntIsOne(n);
  }

  /** "01" has no whitespace for `int()` to skip. */
  lemma PaddedOneIsStripped()
    ensures Text.IntStrip("01") == "01"
  {
    var s := "01";
    assert !Text.IsIntSpace(s[0]) && !Text.IsIntSpace(s[1]);
    Text.TrimUnchanged(s, Text.IsIntSpace);
  }

  /** "01" reads as the integer one. */
  lemma PaddedOneParses()
    ensures Text.ParseDecimal("01") == Some(1)
  {
    var s := "01";
    assert s[..1] == "0" && "0"[..0] == [];
    assert Text.DigitsValue(s) == 1;
  }

  /** `int("01") == 1`. */
  lemma IntOfPaddedOne()
    ensures ToInt(Str("01")) == Ok(1)
  {
    var s := "01";
    PaddedOneIsStripped();
    PaddedOneParses();
    assert Text.ParseDecimal(Text.IntStrip(s)) == Some(1);
  }

  /** A zero-padded "01" is one seat to the e-mail, but not to the WhatsApp message. */
  lemma PaddedOneDiverges()
    ensures Emailer.SeatsLine(Str("01")) == Ok(OneSeat)
    ensures Twilioer.SeatText(Str("01")) == "01" + PartySeatsSuffix
  {
    IntOfPaddedOne();
  }

  /** The boolean `True` is one seat to the e-mail, and "True seats" to the WhatsApp message. */
  lemma TrueDiverges()
    ensures Emailer.SeatsLine(Bool(true)) == Ok(OneSeat)
    ensures Twilioer.SeatText(Bool(true)) == "True" + PartySeatsSuffix
  {
  }
}
