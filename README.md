# Inbound message processing of a multi-device chat client, in Dafny

This project models two C# files of the client. The first is `ProcessMessageUtil`. It normalises the identity key of an inbound envelope (`WebMessageInfo`). It re-expresses the key that a reaction or poll vote refers to from this device's point of view. It decides whether the envelope is a "real", user-visible message, picks the chat the envelope is filed under, and builds the chat delta the envelope implies: last-activity timestamp, unread count, and the archived and read-only flags. The second file is `Extensions`, of which the model covers the lenient text-to-integer conversions `ToUInt32` and `ToUInt64` and the record merge `Update`.

Layout:

- `wrappers.dfy` (`Wrappers`): `Option` for C# null, `Result`, and `Outcome` for "ran to the end or threw".
- `runtime.dfy` (`Runtime`): `uint32`, `uint64` and the .NET exceptions the code can raise.
- `proto.dfy` (`Proto`): the message types. `MessageKey` is a class whose fields the core updates in place, and `KeyFields` is a snapshot of those fields. The content (`Message`) is a value that holds references to key objects. `WebMessageInfo` is an envelope whose only changing part is its key object.
- `collaborators.dfy` (`Collaborators`): `Env`, the JID helpers, content helpers and stub-type tables whose code is not part of this model. They are passed as parameters.
- `models.dfy` (`Models`): the `Chat` record and the credentials.
- `process_message.dfy` (`ProcessMessageUtil`): the operations written as methods (`CleanMessage`, `NormalizeKey`, `ProcessMessage`) and as functions (`GetChatID`, `IsRealMessage`, `ShouldIncrementChatUnread`). It also holds the specification functions `NormalizedKey`, `CorrectedReference` and `ChatDelta`, which the methods are proved against.
- `process_message_lemmas.dfy` (`ProcessMessageLemmas`): properties of normalisation, classification and the delta.
- `extensions.dfy` (`Extensions`) and `extensions_lemmas.dfy` (`ExtensionsLemmas`): trimming, decimal conversion, the two conversions and the merge, with their properties.

The collaborators are parameters, so every lemma holds whatever `JidNormalizedUser`, `AreJidsSameUser`, `NormalizeMessageContent` or `GetContentType` do. The only exceptions are lemmas whose `requires` clauses state an assumption about them, such as "the normaliser is idempotent".

Where the system's design description and the code disagree, the model follows the code:

- The design calls key normalisation idempotent and safe to re-run. In the code, a second pass can change a referenced key: a key the first pass corrected to "from me" is turned back off (`CleanMessageTwice`). The outer key is stable provided `JidNormalizedUser` is idempotent (`NormalizedKeyIdempotent`).
- The design says normalisation never raises. `NormalizeKey` dereferences the referenced key without a null check, so a reaction or poll vote whose key is null, inside someone else's message, throws `NullReferenceException`. The model returns that exception as an `Outcome`. When the reaction's correction throws, the poll vote's correction does not run.
- The design says a reference with neither a participant nor a remote JID is left uncorrected. The code corrects it anyway: it asks `AreJidsSameUser(null, meId)` for the new `FromMe` and sets both `RemoteJid` and `Participant` to the outer key's `RemoteJid` (ProcessMessage.cs lines 130-137). `CorrectedReference` follows the code.
- The design describes a delta with an unread *increment*. The code builds a fresh `Chat` whose `UnreadCount` goes from 0 to 1. It then discards that chat, so the model returns it.

## Model

| member | source | states |
|---|---|---|
| ProcessMessageUtil.CleanMessage | WhatsSocket/Core/Utils/ProcessMessage.cs:17-39 | The outer key becomes `NormalizedKey` of its old value. The reaction's key and then the poll vote's key are each corrected against the new outer key, and only those. When the reaction's correction throws, the poll key is left unchanged. The outcome is `NullReferenceException` exactly when a present reaction or poll vote has a null key and the outer key is not from me. |
| ProcessMessageUtil.NormalizeKey | WhatsSocket/Core/Utils/ProcessMessage.cs:122-139 | A non-null referenced key becomes `CorrectedReference` of the outer key and its own old fields. A null key throws exactly when the outer key is not from me. |
| ProcessMessageUtil.GetChatID | WhatsSocket/Core/Utils/ProcessMessage.cs:111-120 | The chat id is always the key's participant or its remote JID. |
| ProcessMessageUtil.IsRealMessage | WhatsSocket/Core/Utils/ProcessMessage.cs:95-109 | A real message has a content type and is none of a protocol message, a reaction or a poll vote. A real message without content has a stub type from one of the two tables. `RealMessageLegs` gives the exact rule for the remaining cases, and `NotRealForProtocolReactionOrPoll` and `NotRealWithoutContentType` give the exclusions. |
| ProcessMessageUtil.ShouldIncrementChatUnread | WhatsSocket/Core/Utils/ProcessMessage.cs:90-93 | Holds for an incoming message without a stub event. What it decides is stated by `DeltaUnread`: the fresh chat's unread count is 1 exactly for a real, incoming message with stub type `Unknown`. |
| ProcessMessageUtil.SwitchArm | WhatsSocket/Core/Utils/ProcessMessage.cs:67-86 | An arm is reached only by a protocol message, and it is that message's kind. It is never the fall-through kind, and each of the five named kinds reaches its arm. `ProtocolArmIsNotActivity` shows such an envelope is not real and sets no timestamp or unread count. |
| ProcessMessageUtil.ProcessMessage | WhatsSocket/Core/Utils/ProcessMessage.cs:41-88 | Returns a fresh chat whose fields are `ChatDelta` of the envelope and credentials, plus the protocol-switch arm the envelope reaches. It changes no existing object. |
| ProcessMessageLemmas.NormalizedKeyFields | WhatsSocket/Core/Utils/ProcessMessage.cs:19-28 | After cleaning, `RemoteJid` is the normal form of its old value. `Participant` is present exactly when it was present and normalises to non-null, and then it is that normal form. Otherwise it is cleared to absent. `FromMe` and `Id` are unchanged. |
| ProcessMessageLemmas.NormalizedKeyIdempotent | WhatsSocket/Core/Utils/ProcessMessage.cs:19-28 | With an idempotent `JidNormalizedUser`, cleaning the outer key twice equals cleaning it once. |
| ProcessMessageLemmas.CorrectionSkippedForOwnMessages | WhatsSocket/Core/Utils/ProcessMessage.cs:126 | When the outer key is from me, the referenced key is left exactly as it was. |
| ProcessMessageLemmas.CorrectedFromMe | WhatsSocket/Core/Utils/ProcessMessage.cs:130-133 | In someone else's message, the reference's new `FromMe` is true exactly when it was false and its participant is this user. When the participant is absent, its own old `RemoteJid` is used instead, not the outer one. A reference that was from me becomes not from me. |
| ProcessMessageLemmas.CorrectedJids | WhatsSocket/Core/Utils/ProcessMessage.cs:135-137 | The reference takes the outer `RemoteJid`. A present participant is kept, an absent one becomes the new `RemoteJid`, and the id is kept. |
| ProcessMessageLemmas.CorrectionNotIdempotent | WhatsSocket/Core/Utils/ProcessMessage.cs:130-137 | Correcting an already corrected reference keeps its JIDs and id, but turns a `FromMe` of true into false. |
| ProcessMessageLemmas.CleanMessageTwice | WhatsSocket/Core/Utils/ProcessMessage.cs:19-38 | Over two passes of CleanMessage, the outer key is stable when the normaliser is idempotent. A reference the first pass marked "from me" is "not from me" after the second pass. |
| ProcessMessageLemmas.CorrectionScenario | WhatsSocket/Core/Utils/ProcessMessage.cs:130-137 | A reaction in group G by A, to a message whose participant B is this user, becomes `{G, B, fromMe: true}`. |
| ProcessMessageLemmas.ChatIdRule | WhatsSocket/Core/Utils/ProcessMessage.cs:113-119 | A status-broadcast update, not from me, on a broadcast JID is filed under its participant. Own messages and updates outside the status broadcast are filed under `RemoteJid`. |
| ProcessMessageLemmas.StatusScenario | WhatsSocket/Core/Utils/ProcessMessage.cs:113-119 | On the status broadcast, the chat id is participant "P" when the update is not from me, and the broadcast JID when it is. |
| ProcessMessageLemmas.CleanedChatIdIsCanonical | WhatsSocket/Core/Utils/ProcessMessage.cs:46 | After cleaning, with an idempotent normaliser, the re-normalisation at line 46 leaves the chat id unchanged. The one exception is a status update from someone else whose participant was cleared. |
| ProcessMessageLemmas.NotRealWithoutContentType | WhatsSocket/Core/Utils/ProcessMessage.cs:99-105 | An envelope whose unwrapped content has no content type is never real. |
| ProcessMessageLemmas.NotRealForProtocolReactionOrPoll | WhatsSocket/Core/Utils/ProcessMessage.cs:106-108 | An envelope that carries a protocol message, a reaction or a poll vote is never real, whatever its stub type. |
| ProcessMessageLemmas.RealMessageLegs | WhatsSocket/Core/Utils/ProcessMessage.cs:101-108 | Given a content type and none of the excluded kinds, the envelope is real exactly when its content is non-null, or its stub type is in the real table, or its stub type is in the requires-me table and some stub parameter is this user. |
| ProcessMessageLemmas.NoStubParametersTargetNobody | WhatsSocket/Core/Utils/ProcessMessage.cs:103 | With an empty stub-parameter list, the requires-me leg is false. |
| ProcessMessageLemmas.StubLegsNeedContent | WhatsSocket/Core/Utils/ProcessMessage.cs:99-105 | If absent content has no content type, only an envelope with content can be real. The stub-type legs never decide the result on their own. |
| ProcessMessageLemmas.DeltaTimestamp | WhatsSocket/Core/Utils/ProcessMessage.cs:50-52 | The conversation timestamp is set exactly for real messages, and then to the envelope's timestamp. |
| ProcessMessageLemmas.DeltaUnread | WhatsSocket/Core/Utils/ProcessMessage.cs:44-56 | The fresh chat's unread count is 0 or 1. It is 1 exactly for a real message that is not from me and has stub type `Unknown`. |
| ProcessMessageLemmas.DeltaUnarchive | WhatsSocket/Core/Utils/ProcessMessage.cs:61-65 | `Archived` and `ReadOnly` are equal. Both are set, to false, exactly when the message is real or reacts to our own message, and `UnarchiveChats` is on. Otherwise both stay unset. |
| ProcessMessageLemmas.ReactionDelta | WhatsSocket/Core/Utils/ProcessMessage.cs:50-65 | A reaction sets no timestamp and no unread count. It unarchives exactly when it reacts to our own message and the setting is on, and otherwise leaves both flags unset. |
| ProcessMessageLemmas.ProtocolArmIsNotActivity | WhatsSocket/Core/Utils/ProcessMessage.cs:68-86 | An envelope that reaches an arm of the protocol switch is not real. The arm is one of the five named kinds, and the delta has no timestamp and no unread count. |
| ProcessMessageLemmas.GroupMessageScenario | WhatsSocket/Core/Utils/ProcessMessage.cs:41-65 | An ordinary group message "123@g.us" at time 1000, not from me, with no stub and unarchiving on, yields the delta `{123@g.us, 1000, 1, false, false}`. |
| ProcessMessageLemmas.MergingIdleDelta | WhatsSocket/Core/Extensions/Extensions.cs:68-84 | Merging the delta of a message that is neither real nor a reaction to our own message keeps every stored nullable chat property. The non-nullable unread count is set to 0. |
| Extensions.TrimStart | WhatsSocket/Core/Extensions/Extensions.cs:49 | The result is a suffix of the input. Every dropped character is a space, line feed or carriage return, and the result does not start with one. |
| Extensions.TrimEnd | WhatsSocket/Core/Extensions/Extensions.cs:49 | The same as `TrimStart`, at the end of the string. |
| Extensions.Trim | WhatsSocket/Core/Extensions/Extensions.cs:49 | A non-empty result starts and ends with a character other than space, `\n` and `\r`. The result is empty exactly when the input consists only of those three characters. |
| Extensions.ParseUnsigned | WhatsSocket/Core/Extensions/Extensions.cs:54 | It succeeds exactly on non-empty all-digit text whose value, leading zeros allowed, is below the limit, and the success is that value. It is a format error exactly on empty text or text with a non-digit. In every other case it is an overflow error. |
| Extensions.ToUInt32 | WhatsSocket/Core/Extensions/Extensions.cs:45-55 | Never throws `NullReferenceException`; it fails only with a format or overflow error. A success on text that is not blank is the value of the trimmed text, which is all digits. |
| Extensions.ToUInt64 | WhatsSocket/Core/Extensions/Extensions.cs:57-65 | No success reaches 2^32. It throws `NullReferenceException` exactly on null. A success on text that is not blank is the value of the trimmed text, which is all digits. |
| Extensions.ToUInt64Intended | WhatsSocket/Core/Extensions/Extensions.cs:57-65 | The corrected conversion fails only with a format or overflow error. A success on text that is not blank is the value of the trimmed text, which is all digits. |
| Extensions.Update | WhatsSocket/Core/Extensions/Extensions.cs:68-84 | The stored chat becomes `Merge` of its old fields and the new record's fields. |
| ExtensionsLemmas.TrimOfPadded | WhatsSocket/Core/Extensions/Extensions.cs:49 | Trimming removes exactly the space, `\n` and `\r` padding around a text that neither starts nor ends with one of them. |
| ExtensionsLemmas.TrimKeepsTabs | WhatsSocket/Core/Extensions/Extensions.cs:49 | A tab is not trimmed: `" \t\r\n"` trims to `"\t"`. |
| ExtensionsLemmas.DecimalRoundTrip | WhatsSocket/Core/Extensions/Extensions.cs:54 | The value of the decimal text of `n` is `n`. |
| ExtensionsLemmas.ToUInt32OfNull | WhatsSocket/Core/Extensions/Extensions.cs:47-48 | `ToUInt32(null)` is 0. |
| ExtensionsLemmas.ToUInt32OfBlank | WhatsSocket/Core/Extensions/Extensions.cs:49-53 | Text made only of spaces, `\n` and `\r`, the empty text included, converts to 0. |
| ExtensionsLemmas.ToUInt32RoundTrip | WhatsSocket/Core/Extensions/Extensions.cs:49-54 | The padded decimal text of every value below 2^32 converts back to that value. |
| ExtensionsLemmas.ToUInt32Overflow | WhatsSocket/Core/Extensions/Extensions.cs:54 | The padded decimal text of any value of 2^32 or more is an overflow error, not 0. |
| ExtensionsLemmas.ToUInt32NonNumeric | WhatsSocket/Core/Extensions/Extensions.cs:54 | Non-blank text that, once trimmed, is not all digits is a format error, not 0. |
| ExtensionsLemmas.ToUInt32OfDigits | WhatsSocket/Core/Extensions/Extensions.cs:49-54 | Any text that trims to a run of digits converts to that run's value, leading zeros included (`"007"` is 7), or is an overflow error when the value is 2^32 or more. |
| ExtensionsLemmas.ToUInt32OfTab | WhatsSocket/Core/Extensions/Extensions.cs:49-54 | A lone tab survives trimming and is a format error. |
| ExtensionsLemmas.ToUInt64IsToUInt32 | WhatsSocket/Core/Extensions/Extensions.cs:59-64 | On non-null text, ToUInt64 succeeds and fails exactly as ToUInt32 does, with the same value or error. |
| ExtensionsLemmas.ToUInt64RejectsWideValues | WhatsSocket/Core/Extensions/Extensions.cs:64 | Every value from 2^32 to 2^64 - 1 fails with an overflow error. |
| ExtensionsLemmas.ToUInt64IntendedOfNull | WhatsSocket/Core/Extensions/Extensions.cs:57-59 | The corrected conversion maps null to 0. |
| ExtensionsLemmas.ToUInt64IntendedRoundTrip | WhatsSocket/Core/Extensions/Extensions.cs:57-65 | The corrected conversion turns the padded decimal text of every 64-bit value back into that value. |
| ExtensionsLemmas.ToUInt64IntendedOfDigits | WhatsSocket/Core/Extensions/Extensions.cs:57-65 | The corrected conversion turns any text that trims to a run of digits into that run's value, or gives an overflow error when the value is 2^64 or more. |
| ExtensionsLemmas.ToUInt64IntendedExtendsToUInt32 | WhatsSocket/Core/Extensions/Extensions.cs:45-65 | Wherever ToUInt32 succeeds, the corrected ToUInt64 returns the same value. |
| ExtensionsLemmas.MergeIgnoresOtherIds | WhatsSocket/Core/Extensions/Extensions.cs:70-74 | When the IDs differ, the stored record is left completely unchanged. |
| ExtensionsLemmas.MergePrefersNewValues | WhatsSocket/Core/Extensions/Extensions.cs:76-83 | When the IDs are equal, a non-null new property wins and a null one keeps the stored value. The non-nullable unread count always takes the new value. |
| ExtensionsLemmas.MergeIdempotent | WhatsSocket/Core/Extensions/Extensions.cs:81 | Applying the same update twice equals applying it once. |
| ExtensionsLemmas.MergeComposes | WhatsSocket/Core/Extensions/Extensions.cs:76-83 | Applying two updates with the same ID in turn equals applying their merge once. |

## Left out

- The `ShouldProcessHistoryMsg` and `keys` parameters of `ProcessMessage` are not modelled. Neither affects anything, and the history arm's locals, including `ProcessedHistoryMessages.Count`, are read and dropped. The protocol switch is modelled only as the arm it takes (`SwitchArm`), because every arm is empty.
- The code of `JidUtils`, `MessageUtil` and `Constants` is not part of this model. Their functions and tables are parameters of type `Collaborators.Env`.
- The generated protobuf classes are not part of this model. Presence of an optional field is modelled as `Option`, and a null sub-message key as a null `MessageKey?`. The getters' defaults and the setters' null checks are not modelled.
- `CleanMessage` requires the referenced keys to be objects distinct from the outer key and from each other, as they are in any protobuf message tree. Envelopes with shared sub-messages are not modelled.
- An envelope or credentials object with a null `Key`, `Me`, `AccountSettings` or `ProcessedHistoryMessages` is not modelled. The source would throw on it. The last is dereferenced by the history arm of the protocol switch (ProcessMessage.cs line 74).
- The `Chat` declaration is not part of this model. The model gives it only the five properties the core uses, with `UnreadCount` as a non-nullable `int` that starts at 0.
- The model stops at the `Chat` delta. Its persistence, and the credential and key stores, are left out, because the source discards the chat it builds.
- `Update<T>` is modelled at `T = Chat`. The reflection loop over properties is written out over Chat's five properties in declaration order. A null receiver or argument, and properties without a setter, are left out.
- `ToUInt32`, `ToUInt64`: beyond plain decimal digits, the model does not include `Convert.ToUInt32`'s culture rules. It rejects, as a format error, a sign and whitespace other than the trimmed characters (text such as `"\t5"`), which .NET may accept.
- `ToJson`, `IgnoreFalseBool`, `FindMatchingValue` and `CopyMatchingValues` are left out. They are foreign JSON formatting, JSON converter callbacks and runtime reflection over arbitrary types.
- The source joins the realness legs of `IsRealMessage` and the three tests of `GetChatID` with the eager `&` operator. With pure collaborators this cannot be observed, so the model uses `&&` in both.

## Findings

| source | as written | input that shows it | evidently intended | confidence | as-written member | corrected member |
|---|---|---|---|---|---|---|
| WhatsSocket/Core/Extensions/Extensions.cs:64 | `ToUInt64` parses with `Convert.ToUInt32` | `"4294967296"`, and every value from 2^32 to 2^64 - 1, fails with an overflow | parse with `Convert.ToUInt64`, as the name and the `ulong` return type say | high, not executed | ExtensionsLemmas.ToUInt64RejectsWideValues | ExtensionsLemmas.ToUInt64IntendedRoundTrip |
| WhatsSocket/Core/Extensions/Extensions.cs:59 | `ToUInt64` calls `Trim` on its `string?` argument with no null check | `null` throws `NullReferenceException` | return 0 for null, like `ToUInt32` | medium, not executed | Extensions.ToUInt64 | ExtensionsLemmas.ToUInt64IntendedOfNull |
