/**
 The three responses the `/generate-pdf` endpoint can send. Only the status,
 the headers the handler sets itself and the body are modelled; the
 JSON content type that Express adds on its own is not.
 */
module Http {

  type Bytes = seq<bv8>

  /** A header or a JSON member: a name and a string value. */
  type Field = (string, string)

  datatype Body = Attachment(bytes: Bytes) | Json(members: seq<Field>)

  datatype Response = Response(status: nat, headers: seq<Field>, body: Body)

  const MissingUrlError := "URL parameter is required"
  const RenderError := "Error generating PDF"

  const PdfHeaders: seq<Field> := [
    ("Content-Type", "application/pdf"),
    ("Content-Disposition", "attachment; filename=\"generated_page.pdf\"")
  ]

  /** Sent when the `url` query parameter is missing or empty. */
  const BadRequest := Response(400, [], Json([("error", MissingUrlError)]))

  /** Sent when a job produced a PDF: the bytes as a downloadable attachment. */
  function PdfAttachment(pdf: Bytes): Response {
    Response(200, PdfHeaders, Attachment(pdf))
  }

  /** Sent when a job failed: the fixed error text plus the failure's own message. */
  function RenderFailure(message: string): Response {
    Response(500, [], Json([("error", RenderError), ("message", message)]))
  }
}
