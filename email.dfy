/** `sendReminderEmail`, reduced to its outcome: skipped without an API key,
    otherwise delivered or failed as the transport answers. */
module EmailService {
  import opened Digest

  /** The message handed to the transport (its HTML rendering is not modelled). */
  datatype Mail = Mail(to: string, digest: ReminderDigest, username: string)

  datatype SendOutcome = Delivered | Skipped | Failed

  /** What a send does: `transportOk` is whether `sgMail.send` resolved. */
  function SendOutcomeFor(apiKeyConfigured: bool, transportOk: bool): (o: SendOutcome)
    ensures o == Skipped <==> !apiKeyConfigured
    ensures o == Failed <==> apiKeyConfigured && !transportOk
    ensures o == Delivered <==> apiKeyConfigured && transportOk
  {
    if !apiKeyConfigured then Skipped
    else if transportOk then Delivered
    else Failed
  }

  /** The mail transport: whether a key is configured, and what it delivered. */
  class Mailer {
    const apiKeyConfigured: bool
    var outbox: seq<Mail>

    constructor (apiKeyConfigured: bool)
      ensures this.apiKeyConfigured == apiKeyConfigured && outbox == []
    {
      this.apiKeyConfigured := apiKeyConfigured;
      outbox := [];
    }

    /** `sendReminderEmail`: a `Failed` outcome is the rethrown transport error. */
    method SendReminderEmail(mail: Mail, transportOk: bool) returns (outcome: SendOutcome)
      modifies this
      ensures outcome == SendOutcomeFor(apiKeyConfigured, transportOk)
      ensures outbox == if outcome == Delivered then old(outbox) + [mail] else old(outbox)
    {
      if !apiKeyConfigured {
        return Skipped;
      }
      if transportOk {
        outbox := outbox + [mail];
        outcome := Delivered;
      } else {
        outcome := Failed;
      }
    }
  }
}
