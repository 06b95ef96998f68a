/** The inbound email request (dto/EmailDTO.java). `sendEmail` rewrites some of
    its fields in place, so the DTO is an object; `EmailRequest` is the value of
    its fields at one moment. The free-form `params` tree is only read by the
    template stage and is modelled separately, in TemplateParams. */
module EmailDtos {
  import opened JavaLang

  /** The fields of an EmailDTO, each of them nullable. */
  datatype EmailRequest = EmailRequest(
    emailId: Option<string>,
    emailType: Option<string>,
    priority: Option<string>,
    sender: Option<string>,
    receiver: Option<string>,
    cc: Option<string>,
    bcc: Option<string>,
    subject: Option<string>,
    templateName: Option<string>)

  class EmailDto {
    var emailId: Option<string>
    var emailType: Option<string>
    var priority: Option<string>
    var sender: Option<string>
    var receiver: Option<string>
    var cc: Option<string>
    var bcc: Option<string>
    var subject: Option<string>
    var templateName: Option<string>

    constructor (r: EmailRequest)
      ensures Value() == r
    {
      emailId, emailType, priority := r.emailId, r.emailType, r.priority;
      sender, receiver, cc, bcc := r.sender, r.receiver, r.cc, r.bcc;
      subject, templateName := r.subject, r.templateName;
    }

    /** The current field values. */
    function Value(): EmailRequest
      reads this
    {
      EmailRequest(emailId, emailType, priority, sender, receiver, cc, bcc, subject, templateName)
    }
  }
}
