/** The WhatsApp availability-notification dialog's submit handler: the blank check, digit
    stripping, the ten-digit minimum, and the append to the stored notification list. */
module NotificationDialog {
  import opened Text
  import opened Seqs
  import opened Records
  import opened Storage

  /** The fewest digits a phone number may have. */
  const MinPhoneDigits: nat := 10

  /** Which toast the submit shows: one of the two validation errors, or success with the
      stored request. */
  datatype DialogOutcome = PhoneRequired | InvalidPhone | NotificationSet(notification: Notification)

  /** A submit's outcome, the phone field's content afterwards, and the store afterwards. */
  datatype DialogStep = DialogStep(outcome: DialogOutcome, phone: string, store: Store)

  /** `handleSubmit`: reject a blank input, strip the non-digits, reject fewer than ten digits,
      otherwise store an active request for the cleaned number and clear the field. The id
      is the decimal rendering of the first clock reading. */
  function HandleSubmit(phone: string, medicineName: string, store: Store, clock: Clock): (r: DialogStep)
    ensures r.outcome.NotificationSet? <==> |DigitsOf(phone)| >= MinPhoneDigits
    ensures r.outcome == PhoneRequired <==> AllWhitespace(phone)
    ensures r.outcome == InvalidPhone <==> !AllWhitespace(phone) && |DigitsOf(phone)| < MinPhoneDigits
    ensures !r.outcome.NotificationSet? ==> r.phone == phone && r.store == store
    ensures r.outcome.NotificationSet? ==>
              && Items(r.store.medicineNotifications) == Items(store.medicineNotifications) + [r.outcome.notification]
              && r.store.reservations == store.reservations
              && r.store.qualityReports == store.qualityReports
              && r.phone == ""
    ensures r.outcome.NotificationSet? ==>
              var n := r.outcome.notification;
              && n.phoneNumber == DigitsOf(phone)
              && AllDigits(n.phoneNumber)
              && n.medicineName == medicineName
              && n.status == ActiveStatus
              && n.createdAt == clock.forCreatedAt
              && n.id == NatToString(clock.forId)
              && AllDigits(n.id)
  {
    if Trim(phone) == [] then
      TrimEmptyIffAllWhitespace(phone);
      BlankHasNoDigits(phone);
      DialogStep(PhoneRequired, phone, store)
    else
      var clean := DigitsOf(phone);
      if |clean| < MinPhoneDigits then
        DialogStep(InvalidPhone, phone, store)
      else
        DigitsAreDigits(phone);
        var n := Notification(NatToString(clock.forId), medicineName, clean, clock.forCreatedAt, ActiveStatus);
        DialogStep(NotificationSet(n), "", store.(medicineNotifications := Push(store.medicineNotifications, n)))
  }

  /** The cleaned number is made of digits only. */
  lemma DigitsAreDigits(s: string)
    ensures AllDigits(DigitsOf(s))
  {
  }

  /** A whitespace-only input has no digits. */
  lemma BlankHasNoDigits(s: string)
    requires AllWhitespace(s)
    ensures DigitsOf(s) == []
  {
    forall i | 0 <= i < |s| ensures !IsDigit(s[i]) {
      assert IsWhitespace(s[i]);
    }
    FilterKeepsNone(IsDigit, s);
  }

  /** The cleaned number is exactly the input's digits in their order: `picks` are the
      positions of the kept characters, every digit's position is among them, and no other. */
  lemma CleanPhoneIsInputDigits(phone: string) returns (picks: seq<nat>)
    ensures |picks| == |DigitsOf(phone)|
    ensures Ascending(picks)
    ensures forall k :: 0 <= k < |picks| ==> picks[k] < |phone| && DigitsOf(phone)[k] == phone[picks[k]]
    ensures forall i :: 0 <= i < |phone| ==> (IsDigit(phone[i]) <==> i in picks)
  {
    picks := FilterPositions(IsDigit, phone);
  }

  /** Cleaning a cleaned number changes nothing, and a number already made of digits is its
      own cleaned form. */
  lemma CleaningIdempotent(phone: string)
    ensures DigitsOf(DigitsOf(phone)) == DigitsOf(phone)
    ensures AllDigits(phone) ==> DigitsOf(phone) == phone
  {
    FilterIdempotent(IsDigit, phone);
    if AllDigits(phone) {
      FilterKeepsAll(IsDigit, phone);
    }
  }

  /** A non-digit followed by three digits cleans to the three digits. */
  lemma SeparatedGroup(sep: char, a: char, b: char, c: char)
    requires !IsDigit(sep) && IsDigit(a) && IsDigit(b) && IsDigit(c)
    ensures DigitsOf([sep, a, b, c]) == [a, b, c]
  {
    assert Filter(IsDigit, [c]) == [c] by { assert [c][1..] == []; }
    assert Filter(IsDigit, [b, c]) == [b, c] by { assert [b, c][1..] == [c]; }
    assert Filter(IsDigit, [a, b, c]) == [a, b, c] by { assert [a, b, c][1..] == [b, c]; }
    assert [sep, a, b, c][1..] == [a, b, c];
  }

  /** "+243 123 456 789" cleans to its twelve digits. */
  lemma FormattedNumberDigits()
    ensures DigitsOf("+243 123 456 789") == "243123456789"
  {
    var g1, g2, g3, g4 := "+243", " 123", " 456", " 789";
    SeparatedGroup('+', '2', '4', '3');
    SeparatedGroup(' ', '1', '2', '3');
    SeparatedGroup(' ', '4', '5', '6');
    SeparatedGroup(' ', '7', '8', '9');
    FilterConcat(IsDigit, g3, g4);
    FilterConcat(IsDigit, g2, g3 + g4);
    FilterConcat(IsDigit, g1, g2 + (g3 + g4));
    assert "+243 123 456 789" == g1 + (g2 + (g3 + g4));
    assert "243" + ("123" + ("456" + "789")) == "243123456789";
  }

  /** A typical entry: "+243 123 456 789" is accepted and stored as "243123456789". */
  lemma FormattedNumberAccepted(store: Store, clock: Clock)
    ensures var r := HandleSubmit("+243 123 456 789", "Ibuprofen", store, clock);
      r.outcome.NotificationSet? && r.outcome.notification.phoneNumber == "243123456789"
  {
    FormattedNumberDigits();
  }
}
