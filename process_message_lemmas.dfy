/** Properties of key normalisation, classification and the chat delta. */
module ProcessMessageLemmas {
  import opened Wrappers
  import opened Proto
  import opened Models
  import opened Collaborators
  import opened ProcessMessageUtil
  import Extensions

  // ---------------------------------------------------------------------------------------------
  // The outer key

  /** The chat JID is replaced by its normal form; the participant by its normal form, or cleared (absent, never empty) when it was null or normalises to null. */
  lemma NormalizedKeyFields(key: KeyFields, env: Env)
    ensures var cleaned := NormalizedKey(key, env);
      && cleaned.remoteJid == env.jidNormalizedUser(key.remoteJid)
      && (cleaned.participant.Some? <==> key.participant.Some? && env.jidNormalizedUser(key.participant).Some?)
      && (cleaned.participant.Some? ==> cleaned.participant == env.jidNormalizedUser(key.participant))
      && cleaned.fromMe == key.fromMe && cleaned.id == key.id
  {
  }

  /** With a canonicalising normaliser, cleaning an already cleaned key changes nothing. */
  lemma NormalizedKeyIdempotent(key: KeyFields, env: Env)
    requires IdempotentNormalizer(env)
    ensures NormalizedKey(NormalizedKey(key, env), env) == NormalizedKey(key, env)
  {
  }

  // ---------------------------------------------------------------------------------------------
  // The referenced key

  /** A reference in a message this device sent is already expressed from its point of view. */
  lemma CorrectionSkippedForOwnMessages(outer: KeyFields, reference: KeyFields, meId: Jid, env: Env)
    requires outer.fromMe
    ensures CorrectedReference(outer, reference, meId, env) == reference
  {
  }

  /**
   * In someone else's message, a reference becomes "from me" exactly when it was not from its
   * sender and its participant (or, lacking one, its own old chat JID) is this user.
   */
  lemma CorrectedFromMe(outer: KeyFields, reference: KeyFields, meId: Jid, env: Env)
    requires !outer.fromMe
    ensures CorrectedReference(outer, reference, meId, env).fromMe
            == (!reference.fromMe && env.areJidsSameUser(reference.participant.Or(reference.remoteJid), Some(meId)))
    ensures reference.fromMe ==> !CorrectedReference(outer, reference, meId, env).fromMe
  {
  }

  /** The reference moves into the outer message's chat; a missing participant defaults to that chat. */
  lemma CorrectedJids(outer: KeyFields, reference: KeyFields, meId: Jid, env: Env)
    requires !outer.fromMe
    ensures var corrected := CorrectedReference(outer, reference, meId, env);
      && corrected.remoteJid == outer.remoteJid
      && (reference.participant.Some? ==> corrected.participant == reference.participant)
      && (reference.participant.None? ==> corrected.participant == outer.remoteJid)
      && corrected.id == reference.id
  {
  }

  /** Correcting a corrected reference again keeps its JIDs but turns a "from me" back off. */
  lemma CorrectionNotIdempotent(outer: KeyFields, reference: KeyFields, meId: Jid, env: Env)
    requires !outer.fromMe
    ensures var once := CorrectedReference(outer, reference, meId, env);
      var twice := CorrectedReference(outer, once, meId, env);
      && twice == once.(fromMe := twice.fromMe)
      && (once.fromMe ==> !twice.fromMe)
  {
  }

  /**
   * Two passes of CleanMessage: the outer key is stable under a canonicalising normaliser, while
   * a reference the first pass made "from me" is "not from me" after the second.
   */
  lemma CleanMessageTwice(outer: KeyFields, reference: KeyFields, meId: Jid, env: Env)
    requires !outer.fromMe
    ensures var outer1 := NormalizedKey(outer, env);
      var reference1 := CorrectedReference(outer1, reference, meId, env);
      var outer2 := NormalizedKey(outer1, env);
      var reference2 := CorrectedReference(outer2, reference1, meId, env);
      && (IdempotentNormalizer(env) ==> outer2 == outer1)
      && (reference1.fromMe ==> !reference2.fromMe)
  {
  }

  /** A reaction in group G by A to a message whose participant B is this user is recorded as this user's message in G. */
  lemma CorrectionScenario(meId: Jid, env: Env, referenced: Option<Jid>, id: Option<string>)
    requires env.areJidsSameUser(Some("B"), Some(meId))
    ensures CorrectedReference(KeyFields(Some("G"), Some("A"), false, None), KeyFields(referenced, Some("B"), false, id), meId, env)
            == KeyFields(Some("G"), Some("B"), true, id)
  {
  }

  // ---------------------------------------------------------------------------------------------
  // The chat id

  /** A status update from someone else is filed under its author; everything else under its chat JID. */
  lemma ChatIdRule(key: KeyFields, env: Env)
    ensures env.isBroadcast(key.remoteJid) && env.isJidStatusBroadcast(key.remoteJid) && !key.fromMe
            ==> GetChatID(key, env) == key.participant
    ensures key.fromMe ==> GetChatID(key, env) == key.remoteJid
    ensures !env.isBroadcast(key.remoteJid) || !env.isJidStatusBroadcast(key.remoteJid)
            ==> GetChatID(key, env) == key.remoteJid
  {
  }

  lemma StatusScenario(status: Jid, id: Option<string>, env: Env)
    requires env.isBroadcast(Some(status)) && env.isJidStatusBroadcast(Some(status))
    ensures GetChatID(KeyFields(Some(status), Some("P"), false, id), env) == Some("P")
    ensures GetChatID(KeyFields(Some(status), Some("P"), true, id), env) == Some(status)
  {
  }

  /**
   * After cleaning, normalising the chat id again (as ProcessMessage does) changes nothing, except
   * for a status update from someone else whose participant was cleared.
   */
  lemma CleanedChatIdIsCanonical(key: KeyFields, env: Env)
    requires IdempotentNormalizer(env)
    ensures var chatId := GetChatID(NormalizedKey(key, env), env);
      chatId.Some? || chatId == NormalizedKey(key, env).remoteJid ==> env.jidNormalizedUser(chatId) == chatId
  {
  }

  // ---------------------------------------------------------------------------------------------
  // Realness

  lemma NotRealWithoutContentType(message: WebMessageInfo, meId: Jid, env: Env)
    requires env.getContentType(Content(message, env)).None?
    ensures !IsRealMessage(message, meId, env)
  {
  }

  /** Protocol events, reactions and poll votes are never real, whatever their stub type. */
  lemma NotRealForProtocolReactionOrPoll(message: WebMessageInfo, meId: Jid, env: Env)
    requires var content := Content(message, env); HasProtocol(content) || HasReaction(content) || HasPollUpdate(content)
    ensures !IsRealMessage(message, meId, env)
  {
  }

  /** With a content type and none of the excluded kinds, a message is real exactly when one of the three legs holds. */
  lemma RealMessageLegs(message: WebMessageInfo, meId: Jid, env: Env)
    requires var content := Content(message, env);
      env.getContentType(content).Some? && !HasProtocol(content) && !HasReaction(content) && !HasPollUpdate(content)
    ensures IsRealMessage(message, meId, env) <==>
      || Content(message, env).Some?
      || message.messageStubType in env.realMsgStubTypes
      || (message.messageStubType in env.realMsgReqMeStubTypes
          && exists i :: 0 <= i < |message.messageStubParameters|
                         && env.areJidsSameUser(Some(meId), Some(message.messageStubParameters[i])))
  {
  }

  /** Without stub parameters the "targets me" leg is false. */
  lemma NoStubParametersTargetNobody(message: WebMessageInfo, meId: Jid, env: Env)
    requires message.messageStubParameters == []
    ensures var content := Content(message, env);
      IsRealMessage(message, meId, env) <==>
        (content.Some? || message.messageStubType in env.realMsgStubTypes)
        && env.getContentType(content).Some?
        && !HasProtocol(content) && !HasReaction(content) && !HasPollUpdate(content)
  {
  }

  /** If absent content has no content type, the stub-type legs never make a message real on their own. */
  lemma StubLegsNeedContent(message: WebMessageInfo, meId: Jid, env: Env)
    requires env.getContentType(None).None?
    ensures IsRealMessage(message, meId, env) ==> Content(message, env).Some?
  {
  }

  // ---------------------------------------------------------------------------------------------
  // The chat delta

  /** The last-activity timestamp is set exactly for real messages, to the envelope's timestamp. */
  lemma DeltaTimestamp(message: WebMessageInfo, creds: AuthenticationCreds, env: Env)
    ensures var delta := ChatDelta(message, creds, env);
      && (delta.conversationTimestamp.Some? <==> IsRealMessage(message, creds.me.id, env))
      && (delta.conversationTimestamp.Some? ==> delta.conversationTimestamp.value == message.messageTimestamp)
  {
  }

  /** The unread counter of the fresh chat is 1 exactly for a real incoming message without a stub event, else 0. */
  lemma DeltaUnread(message: WebMessageInfo, creds: AuthenticationCreds, env: Env)
    ensures var delta := ChatDelta(message, creds, env);
      && 0 <= delta.unreadCount <= 1
      && (delta.unreadCount == 1 <==>
            IsRealMessage(message, creds.me.id, env) && !message.key.fromMe && message.messageStubType == STUB_UNKNOWN)
  {
  }

  /** Archived and ReadOnly are both set to false exactly when (real or a reaction to our message) and the setting is on; otherwise both stay unset. */
  lemma DeltaUnarchive(message: WebMessageInfo, creds: AuthenticationCreds, env: Env)
    ensures var delta := ChatDelta(message, creds, env);
      && delta.archived == delta.readOnly
      && (delta.archived.Some? <==>
            (IsRealMessage(message, creds.me.id, env) || ReactsToOwnMessage(Content(message, env)))
            && creds.accountSettings.unarchiveChats)
      && (delta.archived.Some? ==> delta.archived == Some(false))
  {
  }

  /** A reaction never counts as activity, but a reaction to our own message unarchives when the setting is on. */
  lemma ReactionDelta(message: WebMessageInfo, creds: AuthenticationCreds, env: Env)
    requires HasReaction(Content(message, env))
    ensures var delta := ChatDelta(message, creds, env);
      && delta.conversationTimestamp.None? && delta.unreadCount == 0
      && (delta.archived == Some(false) <==> ReactsToOwnMessage(Content(message, env)) && creds.accountSettings.unarchiveChats)
      && (delta.archived.None? <==> !(ReactsToOwnMessage(Content(message, env)) && creds.accountSettings.unarchiveChats))
  {
  }

  /** An envelope that reaches an arm of the protocol switch is not real and leaves timestamp and unread count unset. */
  lemma ProtocolArmIsNotActivity(message: WebMessageInfo, creds: AuthenticationCreds, env: Env)
    requires SwitchArm(Content(message, env)).Some?
    ensures !IsRealMessage(message, creds.me.id, env)
    ensures !SwitchArm(Content(message, env)).value.OtherProtocolType?
    ensures var delta := ChatDelta(message, creds, env);
      delta.conversationTimestamp.None? && delta.unreadCount == 0
  {
  }

  /** An ordinary message in a group, with unarchiving on, yields the full delta. */
  lemma GroupMessageScenario(message: WebMessageInfo, creds: AuthenticationCreds, env: Env)
    requires message.key.remoteJid == Some("123@g.us") && !message.key.fromMe
    requires !env.isBroadcast(Some("123@g.us"))
    requires env.jidNormalizedUser(Some("123@g.us")) == Some("123@g.us")
    requires Content(message, env) == Some(Message(Some("hello"), None, None, None))
    requires env.getContentType(Content(message, env)).Some?
    requires message.messageTimestamp == 1000 && message.messageStubType == STUB_UNKNOWN
    requires creds.accountSettings.unarchiveChats
    ensures ChatDelta(message, creds, env) == ChatFields(Some("123@g.us"), Some(1000), 1, Some(false), Some(false))
  {
  }

  /**
   * Merging the delta of a message that is neither real nor a reaction to our own message into the
   * stored chat (Extensions.Update) keeps every stored nullable property and sets the unread counter to 0.
   */
  lemma MergingIdleDelta(existing: ChatFields, message: WebMessageInfo, creds: AuthenticationCreds, env: Env)
    requires !IsRealMessage(message, creds.me.id, env) && !ReactsToOwnMessage(Content(message, env))
    requires existing.id == ChatDelta(message, creds, env).id
    ensures Extensions.Merge(existing, ChatDelta(message, creds, env)) == existing.(unreadCount := 0)
  {
  }
}
