/** What every AI provider shares (core/providers/base.py): the chat message it is handed. */
module ProviderBase {
  /** One chat message as the callers pass it: `{"role": ..., "content": ...}`. */
  datatype ChatMessage = ChatMessage(role: string, content: string)
}
