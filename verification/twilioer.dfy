/** The WhatsApp confirmation (twilioer.py): argument checks, phone normalisation, the seat
    phrase, the choice of content template and its variables, and the destination address. */
module Twilioer {
  import opened Base
  import opened Text
  import opened Values
  import opened Wording
  import PhoneUtils

  /** The environment the module reads at import time. */
  datatype TwilioConfig = TwilioConfig(
    whatsappFrom: Option<string>,     // TWILIO_WHATSAPP_FROM
    attendingSid: Option<string>,     // TWILIO_CONTENT_SID_ATTENDING
    declineSid: Option<string>)       // TWILIO_CONTENT_SID_DECLINE

  /** The arguments of one `messages.create` call; `contentVariables` is the map that is
      serialised with `json.dumps`. */
  datatype WhatsAppMessage = WhatsAppMessage(
    from: Option<string>,
    to: string,
    contentSid: Option<string>,
    contentVariables: map<string, string>)

  /** A message handed to Twilio and the message SID Twilio returned for it. */
  datatype Sent = Sent(message: WhatsAppMessage, sid: string)

  const NameAndPhoneRequired: string := "guest_name and phone_number are required"
  const SeatsAndLinkRequired: string := "seats and rsvp_link are required when attending=True"

  /** The prefix of every destination address. */
  const WhatsAppScheme: string := "whatsapp:"

  /** `seat_text`: decided by comparing the TEXT of `seats` with "1". */
  function SeatText(seats: Scalar): (t: string)
    ensures t == OneSeat <==> ToStr(seats) == "1"
    ensures ToStr(seats) != "1" ==> t == ToStr(seats) + PartySeatsSuffix
  {
    if ToStr(seats) == "1" then OneSeat else ToStr(seats) + PartySeatsSuffix
  }

  /** The message `send_whatsapp(guest_name, phone_number, attending, seats, rsvp_link)` asks
      Twilio to send, or the error it raises before sending; `lib` is the phone-number library. */
  function WhatsAppRequest<N>(lib: PhoneUtils.PhoneLibrary<N>, config: TwilioConfig,
                              guestName: Option<string>, phoneNumber: Option<string>, attending: bool,
                              seats: Scalar, rsvpLink: Option<string>): (r: Result<WhatsAppMessage>)
    // Empty name or number: refused before normalisation.
    ensures !Filled(guestName) || !Filled(phoneNumber) ==> r == Err(ValueError(NameAndPhoneRequired))
    // A normalisation failure comes next, ahead of the seats and link checks.
    ensures (Filled(guestName) && Filled(phoneNumber) &&
             PhoneUtils.CleanPhoneNumber(lib, phoneNumber, Some(PhoneUtils.DefaultRegion)).Err?) ==>
              r == Err(PhoneUtils.CleanPhoneNumber(lib, phoneNumber, Some(PhoneUtils.DefaultRegion)).error)
    // When attending, seats and link must both be truthy.
    ensures (Filled(guestName) && Filled(phoneNumber) &&
             PhoneUtils.CleanPhoneNumber(lib, phoneNumber, Some(PhoneUtils.DefaultRegion)).Ok? &&
             attending && (!Truthy(seats) || !Filled(rsvpLink))) ==>
              r == Err(ValueError(SeatsAndLinkRequired))
    // A message is produced exactly when every check passes; declining needs neither seats nor link.
    ensures r.Ok? <==>
              Filled(guestName) && Filled(phoneNumber) &&
              PhoneUtils.CleanPhoneNumber(lib, phoneNumber, Some(PhoneUtils.DefaultRegion)).Ok? &&
              (!attending || (Truthy(seats) && Filled(rsvpLink)))
    // The message goes to the normalised number, from the configured sender.
    ensures r.Ok? ==>
              r.value.to
                == WhatsAppScheme + PhoneUtils.CleanPhoneNumber(lib, phoneNumber, Some(PhoneUtils.DefaultRegion)).value &&
              r.value.from == config.whatsappFrom
    // Attending: the attending template with name, seat phrase and link.
    ensures r.Ok? && attending ==>
              r.value.contentSid == config.attendingSid &&
              r.value.contentVariables == map["1" := guestName.value, "2" := SeatText(seats), "3" := rsvpLink.value]
    // Declining: the decline template with the name only.
    ensures r.Ok? && !attending ==>
              r.value.contentSid == config.declineSid &&
              r.value.contentVariables == map["1" := guestName.value]
  {
    if !Filled(guestName) || !Filled(phoneNumber) then
      Err(ValueError(NameAndPhoneRequired))
    else
      match PhoneUtils.CleanPhoneNumber(lib, phoneNumber, Some(PhoneUtils.DefaultRegion))
      case Err(e) => Err(e)
      case Ok(formatted) =>
        var seatText := SeatText(seats);
        if attending && (!Truthy(seats) || !Filled(rsvpLink)) then
          Err(ValueError(SeatsAndLinkRequired))
        else
          var contentSid := if attending then config.attendingSid else config.declineSid;
          var contentVars :=
            if attending then map["1" := guestName.value, "2" := seatText, "3" := rsvpLink.value]
            else map["1" := guestName.value];
          Ok(WhatsAppMessage(config.whatsappFrom, WhatsAppScheme + formatted, contentSid, contentVars))
  }

  /** `send_whatsapp(...)`: the request above handed to Twilio's `messages.create`, which returns
      the message SID or raises. */
  function SendWhatsApp<N>(lib: PhoneUtils.PhoneLibrary<N>, config: TwilioConfig,
                           create: WhatsAppMessage -> Result<string>,
                           guestName: Option<string>, phoneNumber: Option<string>, attending: bool,
                           seats: Scalar, rsvpLink: Option<string>): (r: Result<Sent>)
    // A refused request raises its own error and reaches no sender.
    ensures var request := WhatsAppRequest(lib, config, guestName, phoneNumber, attending, seats, rsvpLink);
            request.Err? ==> r == Err(request.error)
    // An admitted request is sent; the call succeeds exactly when Twilio accepts it.
    ensures var request := WhatsAppRequest(lib, config, guestName, phoneNumber, attending, seats, rsvpLink);
            request.Ok? ==>
              && (r.Ok? <==> create(request.value).Ok?)
              && (create(request.value).Err? ==> r == Err(create(request.value).error))
    ensures r.Ok? ==>
              r.value.message == WhatsAppRequest(lib, config, guestName, phoneNumber, attending, seats, rsvpLink).value &&
              r.value.sid == create(r.value.message).value
  {
    match WhatsAppRequest(lib, config, guestName, phoneNumber, attending, seats, rsvpLink)
    case Err(e) => Err(e)
    case Ok(message) =>
      match create(message)
      case Err(e) => Err(e)
      case Ok(sid) => Ok(Sent(message, sid))
  }

  /** For an integer seat count the text comparison agrees with the count being one. */
  lemma SeatTextOfInteger(n: int)
    ensures SeatText(Int(n)) == OneSeat <==> n == 1
  {
    StrOfIntIsOne(n);
  }

  /** A refused call never reaches Twilio: its outcome is the same whatever `create` does. */
  lemma RefusalIndependentOfSender<N>(lib: PhoneUtils.PhoneLibrary<N>, config: TwilioConfig,
                                      create1: WhatsAppMessage -> Result<string>,
                                      create2: WhatsAppMessage -> Result<string>,
                                      guestName: Option<string>, phoneNumber: Option<string>, attending: bool,
                                      seats: Scalar, rsvpLink: Option<string>)
    requires WhatsAppRequest(lib, config, guestName, phoneNumber, attending, seats, rsvpLink).Err?
    ensures SendWhatsApp(lib, config, create2, guestName, phoneNumber, attending, seats, rsvpLink)
            == SendWhatsApp(lib, config, create1, guestName, phoneNumber, attending, seats, rsvpLink)
  {
  }
}
