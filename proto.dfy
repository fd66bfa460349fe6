/**
 * The parts of the protocol's message types (WebMessageInfo, MessageKey, Message) that the
 * message-processing core reads or writes. A message key is an object whose fields are updated
 * in place; the content of a message is a value whose referenced keys are key objects.
 */
module Proto {
  import opened Wrappers
  import opened Runtime

  /** A JID: the protocol's identifier of a user, a group or a broadcast channel. */
  type Jid = string

  /** WebMessageInfo.Types.StubType, the system-event code of an envelope. */
  type StubType = nat

  /** StubType.Unknown: the envelope carries no system event. */
  const STUB_UNKNOWN: StubType := 0

  /** The fields of a MessageKey at one moment. */
  datatype KeyFields = KeyFields(remoteJid: Option<Jid>, participant: Option<Jid>, fromMe: bool, id: Option<string>)

  /** The identity key of a message: the chat it belongs to, its sender within the chat, and whether this device sent it. */
  class MessageKey {
    var remoteJid: Option<Jid>
    var participant: Option<Jid>
    var fromMe: bool
    var id: Option<string>

    constructor (fields: KeyFields)
      ensures Fields() == fields
    {
      remoteJid, participant, fromMe, id := fields.remoteJid, fields.participant, fields.fromMe, fields.id;
    }

    /** The current values of the key's fields. */
    function Fields(): KeyFields
      reads this
    {
      KeyFields(remoteJid, participant, fromMe, id)
    }
  }

  /** ProtocolMessage.Types.Type: the kinds of protocol event the core tells apart. */
  datatype ProtocolType =
    | Revoke
    | EphemeralSetting
    | HistorySyncNotification
    | AppStateSyncKeyShare
    | PeerDataOperationRequestMessage
    | OtherProtocolType(code: nat)

  datatype ProtocolMessage = ProtocolMessage(kind: ProtocolType)

  /** A reaction to the message that `key` identifies (the key is a nullable sub-message). */
  datatype ReactionMessage = ReactionMessage(key: MessageKey?, text: Option<string>)

  /** A vote on the poll whose creating message `pollCreationMessageKey` identifies. */
  datatype PollUpdateMessage = PollUpdateMessage(pollCreationMessageKey: MessageKey?)

  /**
   * A message's content: every field is optional and several may be set at once.
   * `conversation` stands for all the ordinary user content, which is opaque to the core.
   */
  datatype Message = Message(
    conversation: Option<string>,
    reactionMessage: Option<ReactionMessage>,
    pollUpdateMessage: Option<PollUpdateMessage>,
    protocolMessage: Option<ProtocolMessage>)

  /** An inbound envelope. Only the key's fields are changed by the core. */
  class WebMessageInfo {
    const key: MessageKey
    const message: Option<Message>
    const messageTimestamp: uint64
    const messageStubType: StubType
    const messageStubParameters: seq<string>

    constructor (key: MessageKey, message: Option<Message>, messageTimestamp: uint64,
                 messageStubType: StubType, messageStubParameters: seq<string>)
      ensures this.key == key && this.message == message && this.messageTimestamp == messageTimestamp
      ensures this.messageStubType == messageStubType && this.messageStubParameters == messageStubParameters
    {
      this.key := key;
      this.message := message;
      this.messageTimestamp := messageTimestamp;
      this.messageStubType := messageStubType;
      this.messageStubParameters := messageStubParameters;
    }
  }
}
