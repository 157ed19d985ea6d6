/** The message shapes the trimming logic reads: a role and either plain text or a list of parts. */
module Messages {

  datatype Option<T> = None | Some(value: T)

  datatype Role = System | User | Assistant | Tool

  /** A content part. A missing `toolCallId` is modelled as the empty string. */
  datatype Part =
    | TextPart(text: string)
    | ToolCallPart(toolCallId: string, toolName: string, args: string)
    | ToolResultPart(toolCallId: string, toolName: string, result: string)

  /** Message content: a plain string, or an array of parts. */
  datatype Content = Text(text: string) | Parts(parts: seq<Part>)

  datatype Message = Message(role: Role, content: Content)
}
