/** Properties of the Extensions conversions and of the record merge. */
module ExtensionsLemmas {
  import opened Wrappers
  import opened Runtime
  import opened Models
  import opened Extensions

  // ---------------------------------------------------------------------------------------------
  // Trim

  lemma {:induction false} TrimStartOfPadded(padding: string, text: string)
    requires AllTrimChars(padding)
    requires text == [] || text[0] !in TRIM_CHARS
    ensures TrimStart(padding + text) == text
  {
    if padding == [] {
      assert padding + text == text;
    } else {
      assert (padding + text)[0] == padding[0];
      assert (padding + text)[1..] == padding[1..] + text;
      TrimStartOfPadded(padding[1..], text);
    }
  }

  lemma {:induction false} TrimEndOfPadded(text: string, padding: string)
    requires AllTrimChars(padding)
    requires text == [] || text[|text| - 1] !in TRIM_CHARS
    ensures TrimEnd(text + padding) == text
  {
    if padding == [] {
      assert text + padding == text;
    } else {
      var s := text + padding;
      assert s[|s| - 1] == padding[|padding| - 1];
      assert s[..|s| - 1] == text + padding[..|padding| - 1];
      TrimEndOfPadded(text, padding[..|padding| - 1]);
    }
  }

  /** Trimming removes exactly the padding around a text that neither starts nor ends with a trim character. */
  lemma TrimOfPadded(before: string, text: string, after: string)
    requires AllTrimChars(before) && AllTrimChars(after)
    requires text == [] || (text[0] !in TRIM_CHARS && text[|text| - 1] !in TRIM_CHARS)
    ensures Trim(before + text + after) == text
  {
    if text == [] {
      var s := before + text + after;
      assert forall i :: 0 <= i < |s| ==> s[i] in TRIM_CHARS by {
        forall i | 0 <= i < |s| ensures s[i] in TRIM_CHARS {
          if i < |before| { assert s[i] == before[i]; } else { assert s[i] == after[i - |before|]; }
        }
      }
    } else {
      assert before + text + after == before + (text + after);
      TrimStartOfPadded(before, text + after);
      TrimEndOfPadded(text, after);
    }
  }

  /** A tab is not one of the trimmed characters. */
  lemma TrimKeepsTabs()
    ensures Trim(" \t\r\n") == "\t"
  {
    TrimOfPadded(" ", "\t", "\r\n");
    assert " " + "\t" + "\r\n" == " \t\r\n";
  }

  // ---------------------------------------------------------------------------------------------
  // Decimal text

  lemma {:induction false} DecimalRoundTrip(n: nat)
    ensures DecimalValue(DecimalString(n)) == n
  {
    var s := DecimalString(n);
    if n >= 10 {
      DecimalRoundTrip(n / 10);
      assert s[..|s| - 1] == DecimalString(n / 10);
    }
  }

  // ---------------------------------------------------------------------------------------------
  // ToUInt32

  lemma ToUInt32OfNull()
    ensures ToUInt32(None) == Success(0)
  {
  }

  /** Text made only of spaces, line feeds and carriage returns (the empty text included) converts to 0. */
  lemma ToUInt32OfBlank(info: string)
    requires AllTrimChars(info)
    ensures ToUInt32(Some(info)) == Success(0)
  {
  }

  /** The decimal text of any 32-bit value, padded with trim characters, converts back to that value. */
  lemma ToUInt32RoundTrip(before: string, n: nat, after: string)
    requires n < UINT32_LIMIT
    requires AllTrimChars(before) && AllTrimChars(after)
    ensures ToUInt32(Some(before + DecimalString(n) + after)) == Success(n)
  {
    TrimOfPadded(before, DecimalString(n), after);
    DecimalRoundTrip(n);
  }

  /** A number of 2^32 or more is an overflow, not 0. */
  lemma ToUInt32Overflow(before: string, n: nat, after: string)
    requires n >= UINT32_LIMIT
    requires AllTrimChars(before) && AllTrimChars(after)
    ensures ToUInt32(Some(before + DecimalString(n) + after)) == Failure(OverflowException)
  {
    TrimOfPadded(before, DecimalString(n), after);
    DecimalRoundTrip(n);
  }

  /** Non-blank text that is not all digits once trimmed is a format error, not 0. */
  lemma ToUInt32NonNumeric(info: string)
    requires Trim(info) != [] && !AllDigits(Trim(info))
    ensures ToUInt32(Some(info)) == Failure(FormatException)
  {
  }

  /**
   * Any trimmed run of digits converts to its value, leading zeros included ("007" is 7), or
   * overflows when that value does not fit 32 bits.
   */
  lemma ToUInt32OfDigits(info: string)
    requires Trim(info) != [] && AllDigits(Trim(info))
    ensures ToUInt32(Some(info)) ==
              if DecimalValue(Trim(info)) < UINT32_LIMIT then Success(DecimalValue(Trim(info)))
              else Failure(OverflowException)
  {
  }

  /** A tab survives trimming, so a lone tab is a format error. */
  lemma ToUInt32OfTab()
    ensures ToUInt32(Some("\t")) == Failure(FormatException)
  {
  }

  // ---------------------------------------------------------------------------------------------
  // ToUInt64, as written and as intended

  /** On non-null text ToUInt64 returns exactly what ToUInt32 returns. */
  lemma ToUInt64IsToUInt32(info: string)
    ensures ToUInt64(Some(info)).Success? <==> ToUInt32(Some(info)).Success?
    ensures ToUInt64(Some(info)).Success? ==> ToUInt64(Some(info)).value == ToUInt32(Some(info)).value
    ensures ToUInt64(Some(info)).Failure? ==> ToUInt64(Some(info)).error == ToUInt32(Some(info)).error
  {
  }

  /** Every value between 2^32 and 2^64 - 1 fails to convert, although a ulong could hold it. */
  lemma ToUInt64RejectsWideValues(before: string, n: nat, after: string)
    requires UINT32_LIMIT <= n < UINT64_LIMIT
    requires AllTrimChars(before) && AllTrimChars(after)
    ensures ToUInt64(Some(before + DecimalString(n) + after)) == Failure(OverflowException)
  {
    TrimOfPadded(before, DecimalString(n), after);
    DecimalRoundTrip(n);
  }

  lemma ToUInt64IntendedOfNull()
    ensures ToUInt64Intended(None) == Success(0)
  {
  }

  /** The intended ToUInt64 converts the padded decimal text of every 64-bit value back to it. */
  lemma ToUInt64IntendedRoundTrip(before: string, n: nat, after: string)
    requires n < UINT64_LIMIT
    requires AllTrimChars(before) && AllTrimChars(after)
    ensures ToUInt64Intended(Some(before + DecimalString(n) + after)) == Success(n)
  {
    TrimOfPadded(before, DecimalString(n), after);
    DecimalRoundTrip(n);
  }

  /** The intended ToUInt64 converts any trimmed run of digits to its value, or overflows past 64 bits. */
  lemma ToUInt64IntendedOfDigits(info: string)
    requires Trim(info) != [] && AllDigits(Trim(info))
    ensures ToUInt64Intended(Some(info)) ==
              if DecimalValue(Trim(info)) < UINT64_LIMIT then Success(DecimalValue(Trim(info)))
              else Failure(OverflowException)
  {
  }

  /** The intended ToUInt64 agrees with ToUInt32 wherever ToUInt32 succeeds. */
  lemma ToUInt64IntendedExtendsToUInt32(info: Option<string>)
    requires ToUInt32(info).Success?
    ensures ToUInt64Intended(info) == Success(ToUInt32(info).value)
  {
  }

  // ---------------------------------------------------------------------------------------------
  // Merge

  /** A record with another ID leaves the stored one untouched. */
  lemma MergeIgnoresOtherIds(existing: ChatFields, value: ChatFields)
    requires existing.id != value.id
    ensures Merge(existing, value) == existing
  {
  }

  /** With equal IDs, a non-null property of the new record wins, a null one keeps the stored value, and the non-nullable counter is always the new one. */
  lemma MergePrefersNewValues(existing: ChatFields, value: ChatFields)
    requires existing.id == value.id
    ensures var merged := Merge(existing, value);
      && merged.id == existing.id
      && (value.conversationTimestamp.Some? ==> merged.conversationTimestamp == value.conversationTimestamp)
      && (value.conversationTimestamp.None? ==> merged.conversationTimestamp == existing.conversationTimestamp)
      && merged.unreadCount == value.unreadCount
      && (value.archived.Some? ==> merged.archived == value.archived)
      && (value.archived.None? ==> merged.archived == existing.archived)
      && (value.readOnly.Some? ==> merged.readOnly == value.readOnly)
      && (value.readOnly.None? ==> merged.readOnly == existing.readOnly)
  {
  }

  /** Applying the same update twice is applying it once. */
  lemma MergeIdempotent(existing: ChatFields, value: ChatFields)
    ensures Merge(Merge(existing, value), value) == Merge(existing, value)
  {
  }

  /** Applying two updates in turn is applying their merge once. */
  lemma MergeComposes(existing: ChatFields, first: ChatFields, second: ChatFields)
    requires existing.id == first.id == second.id
    ensures Merge(Merge(existing, first), second) == Merge(existing, Merge(first, second))
  {
  }
}
