/** The JSON responses the two API routes return, with their status codes. */
module Http {
  import opened Common
  import opened Records
  import opened Telnyx

  datatype Body =
    | Acknowledged                                   // { success: true }
    | EndpointActive                                 // { status: 'webhook endpoint active' }
    | ErrorMessage(error: string)                    // { error }
    | SendFailed(details: string)                    // { error: 'Failed to send message', details }
    | MessageSent(messageId: Option<string>, message: MessageRow, conversation: ConversationRow)
    | BulkSent(summary: Summary, results: seq<BulkResult>)

  datatype Response = Response(status: nat, body: Body)

  const InternalError := Response(500, ErrorMessage("Internal server error"))
  const Unauthorized := Response(401, ErrorMessage("Unauthorized"))
}
