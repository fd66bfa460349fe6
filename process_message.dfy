/**
 * ProcessMessageUtil: normalises an inbound envelope's key, corrects the keys that reactions and
 * poll votes refer to, classifies the envelope and builds the chat delta it implies.
 */
module ProcessMessageUtil {
  import opened Wrappers
  import opened Runtime
  import opened Proto
  import opened Models
  import opened Collaborators

  // ---------------------------------------------------------------------------------------------
  // Views of the (unwrapped) content

  /** MessageUtil.NormalizeMessageContent(message.Message) */
  function Content(message: WebMessageInfo, env: Env): Option<Message> {
    env.normalizeMessageContent(message.message)
  }

  predicate HasReaction(content: Option<Message>) {
    content.Some? && content.value.reactionMessage.Some?
  }

  predicate HasPollUpdate(content: Option<Message>) {
    content.Some? && content.value.pollUpdateMessage.Some?
  }

  predicate HasProtocol(content: Option<Message>) {
    content.Some? && content.value.protocolMessage.Some?
  }

  /** `content?.ReactionMessage?.Key` */
  function ReactionKey(content: Option<Message>): MessageKey? {
    if HasReaction(content) then content.value.reactionMessage.value.key else null
  }

  /** `content?.PollUpdateMessage?.PollCreationMessageKey` */
  function PollCreationKey(content: Option<Message>): MessageKey? {
    if HasPollUpdate(content) then content.value.pollUpdateMessage.value.pollCreationMessageKey else null
  }

  /** `content?.ReactionMessage?.Key?.FromMe == true`: someone reacted to a message of ours. */
  predicate ReactsToOwnMessage(content: Option<Message>)
    reads ReactionKey(content)
  {
    ReactionKey(content) != null && ReactionKey(content).fromMe
  }

  // ---------------------------------------------------------------------------------------------
  // Key normalisation

  /** The outer key after the first step of CleanMessage. */
  function NormalizedKey(key: KeyFields, env: Env): KeyFields {
    var participant := if key.participant.Some? then env.jidNormalizedUser(key.participant) else None;
    key.(remoteJid := env.jidNormalizedUser(key.remoteJid), participant := participant)
  }

  /**
   * A referenced key after NormalizeKey, given the outer key at the time of the call. Its new
   * fromMe is computed from its own participant or old remoteJid, before remoteJid is replaced;
   * the participant default uses the new remoteJid.
   */
  function CorrectedReference(outer: KeyFields, reference: KeyFields, meId: Jid, env: Env): KeyFields {
    if outer.fromMe then reference
    else
      var fromMe := if reference.fromMe == false
                    then env.areJidsSameUser(reference.participant.Or(reference.remoteJid), Some(meId))
                    else false;
      var remoteJid := outer.remoteJid;
      KeyFields(remoteJid, reference.participant.Or(remoteJid), fromMe, reference.id)
  }

  /** NormalizeKey throws when it dereferences a null referenced key. */
  predicate ReferenceThrows(outer: KeyFields, present: bool, reference: MessageKey?) {
    present && reference == null && !outer.fromMe
  }

  /** Re-expresses a referenced key from this device's point of view, in place. */
  method NormalizeKey(message: WebMessageInfo, meId: Jid, msgKey: MessageKey?, env: Env)
    returns (outcome: Outcome<Exception>)
    modifies msgKey
    ensures msgKey != null ==>
      msgKey.Fields() == CorrectedReference(old(message.key.Fields()), old(msgKey.Fields()), meId, env)
    ensures outcome == if ReferenceThrows(old(message.key.Fields()), true, msgKey)
                       then Fail(NullReferenceException) else Pass
  {
    if !message.key.fromMe {
      if msgKey == null {
        return Fail(NullReferenceException);
      }
      msgKey.fromMe := if msgKey.fromMe == false
                       then env.areJidsSameUser(msgKey.participant.Or(msgKey.remoteJid), Some(meId))
                       else false;
      msgKey.remoteJid := message.key.remoteJid;
      msgKey.participant := msgKey.participant.Or(msgKey.remoteJid);
    }
    outcome := Pass;
  }

  /**
   * The referenced keys are objects of their own, distinct from the outer key and from each other,
   * as in any protobuf message tree.
   */
  predicate TreeShaped(message: WebMessageInfo, env: Env) {
    var content := Content(message, env);
    ReactionKey(content) != message.key && PollCreationKey(content) != message.key &&
    (ReactionKey(content) == null || ReactionKey(content) != PollCreationKey(content))
  }

  /**
   * Normalises the envelope's key in place, then corrects the key a reaction refers to and the
   * key a poll vote refers to. A throw while correcting the reaction's key skips the poll's.
   */
  method CleanMessage(message: WebMessageInfo, meId: Jid, env: Env) returns (outcome: Outcome<Exception>)
    requires TreeShaped(message, env)
    modifies message.key, ReactionKey(Content(message, env)), PollCreationKey(Content(message, env))
    ensures message.key.Fields() == NormalizedKey(old(message.key.Fields()), env)
    ensures var content := Content(message, env);
      var reaction := ReactionKey(content);
      reaction != null ==>
        reaction.Fields() == CorrectedReference(message.key.Fields(), old(reaction.Fields()), meId, env)
    ensures var content := Content(message, env);
      var reactionThrows := ReferenceThrows(message.key.Fields(), HasReaction(content), ReactionKey(content));
      var poll := PollCreationKey(content);
      poll != null ==>
        poll.Fields() == if reactionThrows then old(poll.Fields())
                         else CorrectedReference(message.key.Fields(), old(poll.Fields()), meId, env)
    ensures var content := Content(message, env);
      outcome == if ReferenceThrows(message.key.Fields(), HasReaction(content), ReactionKey(content))
                 || ReferenceThrows(message.key.Fields(), HasPollUpdate(content), PollCreationKey(content))
                 then Fail(NullReferenceException) else Pass
  {
    message.key.remoteJid := env.jidNormalizedUser(message.key.remoteJid);
    var participant := if message.key.participant.Some? then env.jidNormalizedUser(message.key.participant) else None;
    if participant.Some? {
      message.key.participant := participant;
    } else {
      message.key.participant := None;  // ClearParticipant
    }
    var content := env.normalizeMessageContent(message.message);
    outcome := Pass;
    if HasReaction(content) {
      outcome := NormalizeKey(message, meId, content.value.reactionMessage.value.key, env);
      if outcome.Fail? {
        return;
      }
    }
    if HasPollUpdate(content) {
      outcome := NormalizeKey(message, meId, content.value.pollUpdateMessage.value.pollCreationMessageKey, env);
    }
  }

  // ---------------------------------------------------------------------------------------------
  // Classification

  /**
   * The chat a key's message is filed under: its author for a status update from someone else.
   * (The source joins the three tests with the eager `&`; they are pure here, so `&&` agrees.)
   */
  function GetChatID(key: KeyFields, env: Env): (chatId: Option<Jid>)
    ensures chatId == key.participant || chatId == key.remoteJid
  {
    if env.isBroadcast(key.remoteJid) && env.isJidStatusBroadcast(key.remoteJid) && !key.fromMe
    then key.participant
    else key.remoteJid
  }

  /** Some stub parameter denotes the same user as `meId`. */
  predicate TargetsMe(stubParameters: seq<string>, meId: Jid, env: Env) {
    exists parameter | parameter in stubParameters :: env.areJidsSameUser(Some(meId), Some(parameter))
  }

  /**
   * A user-visible message: some content or a "real" stub event, a content type, and none of a
   * protocol event, a reaction or a poll vote. (The source joins the legs with the eager `&`;
   * every leg is a pure expression here, so the eager and lazy readings agree.)
   */
  predicate IsRealMessage(message: WebMessageInfo, meId: Jid, env: Env)
    ensures IsRealMessage(message, meId, env) ==> env.getContentType(Content(message, env)).Some?
    ensures var content := Content(message, env);
      HasProtocol(content) || HasReaction(content) || HasPollUpdate(content) ==> !IsRealMessage(message, meId, env)
    ensures IsRealMessage(message, meId, env) && Content(message, env).None? ==>
      message.messageStubType in env.realMsgStubTypes + env.realMsgReqMeStubTypes
  {
    var normalizedContent := Content(message, env);
    var hasSomeContent := env.getContentType(normalizedContent);
    (normalizedContent.Some?
     || message.messageStubType in env.realMsgStubTypes
     || (message.messageStubType in env.realMsgReqMeStubTypes && TargetsMe(message.messageStubParameters, meId, env)))
    && hasSomeContent.Some?
    && !HasProtocol(normalizedContent)
    && !HasReaction(normalizedContent)
    && !HasPollUpdate(normalizedContent)
  }

  /** An incoming message without a stub event. */
  predicate ShouldIncrementChatUnread(message: WebMessageInfo)
    reads message.key
  {
    !message.key.fromMe && message.messageStubType == STUB_UNKNOWN
  }

  /** The chat delta ProcessMessage builds for an envelope. */
  function ChatDelta(message: WebMessageInfo, creds: AuthenticationCreds, env: Env): ChatFields
    reads message.key, ReactionKey(Content(message, env))
  {
    var isRealMessage := IsRealMessage(message, creds.me.id, env);
    var unarchive := (isRealMessage || ReactsToOwnMessage(Content(message, env))) && creds.accountSettings.unarchiveChats;
    ChatFields(
      id := env.jidNormalizedUser(GetChatID(message.key.Fields(), env)),
      conversationTimestamp := if isRealMessage then Some(message.messageTimestamp) else None,
      unreadCount := if isRealMessage && ShouldIncrementChatUnread(message) then 1 else 0,
      archived := if unarchive then Some(false) else None,
      readOnly := if unarchive then Some(false) else None)
  }

  /** The arm of the protocol-message switch that runs, if any. Every arm is an empty extension point. */
  function SwitchArm(content: Option<Message>): (arm: Option<ProtocolType>)
    ensures arm.Some? ==> HasProtocol(content) && arm.value == content.value.protocolMessage.value.kind
    ensures arm.Some? ==> !arm.value.OtherProtocolType?
    ensures HasProtocol(content) && !content.value.protocolMessage.value.kind.OtherProtocolType? ==> arm.Some?
  {
    if !HasProtocol(content) then None
    else match content.value.protocolMessage.value.kind
      case OtherProtocolType(_) => None
      case kind => Some(kind)
  }

  /**
   * Builds a fresh chat delta for the envelope, field by field, and reports the protocol-switch arm
   * taken. Changes nothing that existed before the call.
   */
  method ProcessMessage(message: WebMessageInfo, creds: AuthenticationCreds, env: Env)
    returns (chat: Chat, arm: Option<ProtocolType>)
    ensures fresh(chat)
    ensures chat.Fields() == ChatDelta(message, creds, env)
    ensures arm == SwitchArm(Content(message, env))
  {
    var meId := creds.me.id;
    chat := new Chat();
    chat.id := env.jidNormalizedUser(GetChatID(message.key.Fields(), env));
    var isRealMessage := IsRealMessage(message, meId, env);
    if isRealMessage {
      chat.conversationTimestamp := Some(message.messageTimestamp);
      if ShouldIncrementChatUnread(message) {
        chat.unreadCount := chat.unreadCount + 1;
      }
    }
    var content := env.normalizeMessageContent(message.message);
    if (isRealMessage || ReactsToOwnMessage(content)) && creds.accountSettings.unarchiveChats {
      chat.archived := Some(false);
      chat.readOnly := Some(false);
    }
    arm := None;
    if HasProtocol(content) {
      match content.value.protocolMessage.value.kind {
        case HistorySyncNotification => arm := Some(HistorySyncNotification);
        case AppStateSyncKeyShare => arm := Some(AppStateSyncKeyShare);
        case Revoke => arm := Some(Revoke);
        case EphemeralSetting => arm := Some(EphemeralSetting);
        case PeerDataOperationRequestMessage => arm := Some(PeerDataOperationRequestMessage);
        case OtherProtocolType(_) =>
      }
    }
  }
}
