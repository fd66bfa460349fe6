/**
 * The helpers the core calls but whose code is not part of this model: JID normalisation and
 * comparison, message-content unwrapping and classification, and the two stub-type tables.
 * They are given as parameters, so every property proved here holds whatever they do, unless a
 * lemma states an assumption about them.
 */
module Collaborators {
  import opened Wrappers
  import opened Proto

  datatype Env = Env(
    /** JidUtils.JidNormalizedUser: canonical user form of a JID, or null. */
    jidNormalizedUser: Option<Jid> -> Option<Jid>,
    /** JidUtils.AreJidsSameUser */
    areJidsSameUser: (Option<Jid>, Option<Jid>) -> bool,
    /** JidUtils.IsBroadcast */
    isBroadcast: Option<Jid> -> bool,
    /** JidUtils.IsJidStatusBroadcast */
    isJidStatusBroadcast: Option<Jid> -> bool,
    /** MessageUtil.NormalizeMessageContent: the content inside any wrapper, or null. */
    normalizeMessageContent: Option<Message> -> Option<Message>,
    /** MessageUtil.GetContentType: the name of the content's type, or null. */
    getContentType: Option<Message> -> Option<string>,
    /** Constants.REAL_MSG_STUB_TYPES */
    realMsgStubTypes: set<StubType>,
    /** Constants.REAL_MSG_REQ_ME_STUB_TYPES */
    realMsgReqMeStubTypes: set<StubType>)

  /** The normaliser maps every output to itself, as a canonicalisation should. */
  ghost predicate IdempotentNormalizer(env: Env) {
    forall jid :: env.jidNormalizedUser(env.jidNormalizedUser(jid)) == env.jidNormalizedUser(jid)
  }
}
