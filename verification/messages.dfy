/** The chat records shared by the agent and the view model. */
module Messages {

  /** Who wrote a message (`Agent`). */
  datatype Author = User | AiAgent

  /**
   * One chat message as the view model builds it: its author, its text and
   * whether the user wrote it. The record's random `UUID` identity is not modelled.
   */
  datatype ChatMessage = ChatMessage(author: Author, content: string, isUser: bool)
}
