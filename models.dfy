/** The stored records the core produces or reads: a chat and the account credentials. */
module Models {
  import opened Wrappers
  import opened Runtime
  import opened Proto

  /** The fields of a Chat at one moment; `None` is a property left at null. */
  datatype ChatFields = ChatFields(
    id: Option<Jid>,
    conversationTimestamp: Option<uint64>,
    unreadCount: int,
    archived: Option<bool>,
    readOnly: Option<bool>)

  /** A chat record, built field by field and merged into the stored one by Extensions.Update. */
  class Chat {
    var id: Option<Jid>
    var conversationTimestamp: Option<uint64>
    var unreadCount: int
    var archived: Option<bool>
    var readOnly: Option<bool>

    /** `new Chat()`: every nullable property null, the unread counter 0. */
    constructor ()
      ensures Fields() == ChatFields(None, None, 0, None, None)
    {
      id, conversationTimestamp, unreadCount, archived, readOnly := None, None, 0, None, None;
    }

    function Fields(): ChatFields
      reads this
    {
      ChatFields(id, conversationTimestamp, unreadCount, archived, readOnly)
    }
  }

  datatype Contact = Contact(id: Jid)
  datatype AccountSettings = AccountSettings(unarchiveChats: bool)

  /** AuthenticationCreds, as far as message processing reads it. */
  datatype AuthenticationCreds = AuthenticationCreds(me: Contact, accountSettings: AccountSettings)
}
