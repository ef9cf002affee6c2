/** The message types and reserved names of the hub. */
module Messages {
  const MessageTypeAction := "action"
  const MessageTypeConfig := "config"
  const MessageTypeEvent := "event"
  const MessageTypeRPC := "rpc"
  const MessageTypeINBOX := "_INBOX"
  const EventNameProps := "$properties"
}
