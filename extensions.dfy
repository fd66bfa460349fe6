/**
 * Extensions: lenient text-to-integer conversion and the merge of an updated record into a
 * stored one.
 */
module Extensions {
  import opened Wrappers
  import opened Runtime
  import opened Models

  // ---------------------------------------------------------------------------------------------
  // string.Trim(' ', '\n', '\r')

  /** The characters the conversions trim: space, line feed and carriage return (not tab). */
  const TRIM_CHARS: set<char> := {' ', '\n', '\r'}

  predicate AllTrimChars(s: string) {
    forall i :: 0 <= i < |s| ==> s[i] in TRIM_CHARS
  }

  /** Drops the leading trim characters. */
  function TrimStart(s: string): (r: string)
    ensures |r| <= |s| && r == s[|s| - |r|..]
    ensures AllTrimChars(s[..|s| - |r|])
    ensures r != [] ==> r[0] !in TRIM_CHARS
  {
    if s != [] && s[0] in TRIM_CHARS then TrimStart(s[1..]) else s
  }

  /** Drops the trailing trim characters. */
  function TrimEnd(s: string): (r: string)
    ensures |r| <= |s| && r == s[..|r|]
    ensures AllTrimChars(s[|r|..])
    ensures r != [] ==> r[|r| - 1] !in TRIM_CHARS
  {
    if s != [] && s[|s| - 1] in TRIM_CHARS then TrimEnd(s[..|s| - 1]) else s
  }

  /** Drops the trim characters at both ends. */
  function Trim(s: string): (r: string)
    ensures r != [] ==> r[0] !in TRIM_CHARS && r[|r| - 1] !in TRIM_CHARS
    ensures r == [] <==> AllTrimChars(s)
  {
    TrimEnd(TrimStart(s))
  }

  // ---------------------------------------------------------------------------------------------
  // Convert.ToUInt32, on plain decimal digits

  predicate IsDigit(ch: char) {
    '0' <= ch <= '9'
  }

  predicate AllDigits(s: string) {
    forall i :: 0 <= i < |s| ==> IsDigit(s[i])
  }

  /** The number a digit string denotes (leading zeros allowed). */
  function DecimalValue(s: string): nat
    requires AllDigits(s)
  {
    if s == [] then 0 else DecimalValue(s[..|s| - 1]) * 10 + (s[|s| - 1] as int - '0' as int)
  }

  /** The shortest digit string of `n`. */
  function DecimalString(n: nat): (s: string)
    ensures s != [] && AllDigits(s)
    ensures s[0] !in TRIM_CHARS && s[|s| - 1] !in TRIM_CHARS
  {
    var last := ['0' + (n % 10) as char];
    if n < 10 then last else DecimalString(n / 10) + last
  }

  /** Parses a non-empty run of digits whose value lies below `limit`. */
  function ParseUnsigned(s: string, limit: nat): (r: Result<nat, Exception>)
    ensures r.Success? <==> s != [] && AllDigits(s) && DecimalValue(s) < limit
    ensures r.Success? ==> r.value == DecimalValue(s) && r.value < limit
    ensures r == Failure(FormatException) <==> s == [] || !AllDigits(s)
    ensures r.Failure? ==> r.error == FormatException || r.error == OverflowException
  {
    if s == [] || !AllDigits(s) then Failure(FormatException)
    else if DecimalValue(s) >= limit then Failure(OverflowException)
    else Success(DecimalValue(s))
  }

  /** Convert.ToUInt32(string), restricted to plain decimal digits. */
  function ConvertToUInt32(s: string): Result<uint32, Exception>
  {
    match ParseUnsigned(s, UINT32_LIMIT)
    case Success(v) => Success(v)
    case Failure(e) => Failure(e)
  }

  /** Convert.ToUInt64(string), restricted to plain decimal digits. */
  function ConvertToUInt64(s: string): Result<uint64, Exception>
  {
    match ParseUnsigned(s, UINT64_LIMIT)
    case Success(v) => Success(v)
    case Failure(e) => Failure(e)
  }

  // ---------------------------------------------------------------------------------------------
  // The conversions

  /** `info.ToUInt32()`: null and blank text give 0, anything else goes to Convert.ToUInt32. */
  function ToUInt32(info: Option<string>): (r: Result<uint32, Exception>)
    ensures r.Failure? ==> r.error == FormatException || r.error == OverflowException
    ensures r.Success? && info.Some? && !AllTrimChars(info.value) ==>
              AllDigits(Trim(info.value)) && r.value == DecimalValue(Trim(info.value))
  {
    if info.None? then Success(0)
    else
      var trimmed := Trim(info.value);
      if trimmed == [] then Success(0) else ConvertToUInt32(trimmed)
  }

  /**
   * `info.ToUInt64()` as written: no null guard, and the text goes to Convert.ToUInt32, so no
   * result reaches 2^32 although the return type is 64 bits wide.
   */
  function ToUInt64(info: Option<string>): (r: Result<uint64, Exception>)
    ensures r.Success? ==> r.value < UINT32_LIMIT
    ensures r.Failure? && r.error == NullReferenceException <==> info.None?
    ensures r.Success? && info.Some? && !AllTrimChars(info.value) ==>
              AllDigits(Trim(info.value)) && r.value == DecimalValue(Trim(info.value))
  {
    if info.None? then Failure(NullReferenceException)  // Trim on a null receiver
    else
      var trimmed := Trim(info.value);
      if trimmed == [] then Success(0)
      else match ConvertToUInt32(trimmed)
        case Success(v) => Success(v)
        case Failure(e) => Failure(e)
  }

  /** `ToUInt64` as its name and return type intend: guarded like ToUInt32 and parsed to 64 bits. */
  function ToUInt64Intended(info: Option<string>): (r: Result<uint64, Exception>)
    ensures r.Failure? ==> r.error == FormatException || r.error == OverflowException
    ensures r.Success? && info.Some? && !AllTrimChars(info.value) ==>
              AllDigits(Trim(info.value)) && r.value == DecimalValue(Trim(info.value))
  {
    if info.None? then Success(0)
    else
      var trimmed := Trim(info.value);
      if trimmed == [] then Success(0) else ConvertToUInt64(trimmed)
  }

  // ---------------------------------------------------------------------------------------------
  // Update<T>, at T = Chat

  /** `new ?? old` for one property. */
  function Prefer<T>(newValue: Option<T>, oldValue: Option<T>): Option<T> {
    newValue.Or(oldValue)
  }

  /** The stored record after Update: unchanged unless the IDs agree, then property by property `new ?? old`. */
  function Merge(existing: ChatFields, value: ChatFields): ChatFields {
    if existing.id != value.id then existing
    else ChatFields(
      Prefer(value.id, existing.id),
      Prefer(value.conversationTimestamp, existing.conversationTimestamp),
      value.unreadCount,  // an int property is boxed, never null
      Prefer(value.archived, existing.archived),
      Prefer(value.readOnly, existing.readOnly))
  }

  /** Copies every non-null property of `value` onto `existing` when their IDs agree. */
  method Update(existing: Chat, value: Chat)
    modifies existing
    ensures existing.Fields() == Merge(old(existing.Fields()), old(value.Fields()))
  {
    if existing.id != value.id {
      return;  // only update if the IDs match
    }
    // the property loop, over Chat's properties in declaration order
    var oldId, newId := existing.id, value.id;
    existing.id := Prefer(newId, oldId);
    var oldTimestamp, newTimestamp := existing.conversationTimestamp, value.conversationTimestamp;
    existing.conversationTimestamp := Prefer(newTimestamp, oldTimestamp);
    var newUnread := value.unreadCount;
    existing.unreadCount := newUnread;
    var oldArchived, newArchived := existing.archived, value.archived;
    existing.archived := Prefer(newArchived, oldArchived);
    var oldReadOnly, newReadOnly := existing.readOnly, value.readOnly;
    existing.readOnly := Prefer(newReadOnly, oldReadOnly);
  }
}
