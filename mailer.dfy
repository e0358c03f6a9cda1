/**
 * Mail handed to `sendEmail` (lib/nodemailer.ts). The HTML layout of each template is not
 * modelled; a body keeps the values the template interpolates.
 */
module Mailer {
  import opened Wrappers

  datatype Body =
    | OtpCode(code: string, minutes: nat, remaining: int, limit: nat)
    | NewsletterHtml(subject: string, messageHtml: string, promoCode: Option<string>)
    | InquiryToOwner(package: string, firstName: string, lastName: string, contactNumber: string,
                     email: string, facebook: string, address: string)
    | InquiryReply(firstName: string)
    | BookingToOwner(date: string, package: string, firstName: string, lastName: string,
                     contactNumber: string, email: string)
    | BookingReply(firstName: string, date: string)

  datatype Mail = Mail(to: string, subject: string, body: Body)

  /** Every mail the application asked the mailer to send, in order. */
  class Outbox {
    var sent: seq<Mail>
  }
}
