/** The payment dialog's input handling: how a keystroke's new field value is
    reformatted before it is stored (card number in groups of four, expiry
    as MM/YY, CVV as at most three digits), and the payload the dialog hands
    back on submit. */
module PaymentForm {
  import opened Basics
  import opened Payment

  /** `s.replace(/\s/g, '')`. */
  function StripSpaces(s: string): (r: string)
    ensures |r| <= |s|
    ensures forall i :: 0 <= i < |r| ==> !IsSpace(r[i])
  {
    if s == [] then [] else (if IsSpace(s[0]) then [] else [s[0]]) + StripSpaces(s[1..])
  }

  /** Stripping removes exactly the white space: a string without any comes
      back unchanged, and a single character is dropped just when it is
      white space. */
  lemma {:induction false} StripSpacesKeeps(s: string)
    ensures (forall i :: 0 <= i < |s| ==> !IsSpace(s[i])) ==> StripSpaces(s) == s
    ensures |s| == 1 ==> StripSpaces(s) == (if IsSpace(s[0]) then [] else s)
  {
    if s != [] {
      StripSpacesKeeps(s[1..]);
      assert [s[0]] + s[1..] == s;
    }
  }

  lemma {:induction false} StripSpacesAppend(a: string, b: string)
    ensures StripSpaces(a + b) == StripSpaces(a) + StripSpaces(b)
  {
    if a == [] {
      assert a + b == b;
    } else {
      assert (a + b)[0] == a[0] && (a + b)[1..] == a[1..] + b;
      StripSpacesAppend(a[1..], b);
    }
  }

  /** `s.replace(/(\d{4})/g, '$1 ')`: scanning from the left, every run of
      four digits not already used gets a space after it. */
  function GroupDigits(s: string): string
  {
    if |s| >= 4 && AllDigits(s[..4]) then s[..4] + " " + GroupDigits(s[4..])
    else if s == [] then []
    else [s[0]] + GroupDigits(s[1..])
  }

  function TrimStart(s: string): (r: string)
    ensures |r| <= |s|
  {
    if s != [] && IsSpace(s[0]) then TrimStart(s[1..]) else s
  }

  function TrimEnd(s: string): (r: string)
    ensures |r| <= |s|
  {
    if s != [] && IsSpace(s[|s| - 1]) then TrimEnd(s[..|s| - 1]) else s
  }

  /** `String.prototype.trim`. */
  function Trim(s: string): string
  {
    TrimEnd(TrimStart(s))
  }

  /** The card-number field after a keystroke, before the length check.
      Formatting only moves white space: the other characters typed are all
      kept, in their order. */
  function FormatCardNumber(value: string): (r: string)
    ensures StripSpaces(r) == StripSpaces(value)
  {
    var d := StripSpaces(value);
    var g := GroupDigits(d);
    StripSpacesKeeps(d);
    GroupDigitsSpaces(d);
    TrimStartSpaces(g);
    TrimEndSpaces(TrimStart(g));
    Trim(g)
  }

  /** Grouping inserts nothing but spaces. */
  lemma {:induction false} GroupDigitsSpaces(s: string)
    ensures StripSpaces(GroupDigits(s)) == StripSpaces(s)
  {
    if |s| >= 4 && AllDigits(s[..4]) {
      GroupDigitsSpaces(s[4..]);
      StripSpacesAppend(s[..4] + " ", GroupDigits(s[4..]));
      StripSpacesAppend(s[..4], " ");
      StripSpacesAppend(s[..4], s[4..]);
      assert s[..4] + s[4..] == s;
    } else if s != [] {
      GroupDigitsSpaces(s[1..]);
      StripSpacesAppend([s[0]], GroupDigits(s[1..]));
      StripSpacesAppend([s[0]], s[1..]);
      assert [s[0]] + s[1..] == s;
    }
  }

  /** Trimming removes nothing but white space. */
  lemma {:induction false} TrimStartSpaces(s: string)
    ensures StripSpaces(TrimStart(s)) == StripSpaces(s)
  {
    if s != [] && IsSpace(s[0]) {
      TrimStartSpaces(s[1..]);
    }
  }

  lemma {:induction false} TrimEndSpaces(s: string)
    ensures StripSpaces(TrimEnd(s)) == StripSpaces(s)
  {
    if s != [] && IsSpace(s[|s| - 1]) {
      var init := s[..|s| - 1];
      TrimEndSpaces(init);
      StripSpacesAppend(init, [s[|s| - 1]]);
      assert init + [s[|s| - 1]] == s;
    }
  }

  /** The intended display of a digit string: groups of four separated by
      single spaces, the last group possibly shorter, no trailing space. */
  function Grouped(d: string): (r: string)
    ensures |d| >= 1 ==> |r| == |d| + (|d| - 1) / 4
  {
    if |d| <= 4 then d else d[..4] + " " + Grouped(d[4..])
  }

  lemma {:induction false} GroupDigitsShort(s: string)
    requires |s| < 4
    ensures GroupDigits(s) == s
  {
    if s != [] {
      GroupDigitsShort(s[1..]);
    }
  }

  lemma {:induction false} GroupDigitsOfDigits(d: string)
    requires AllDigits(d)
    ensures GroupDigits(d) == Grouped(d) + (if |d| > 0 && |d| % 4 == 0 then " " else "")
  {
    if |d| < 4 {
      GroupDigitsShort(d);
    } else if |d| == 4 {
      assert d[4..] == [];
      assert d[..4] == d;
    } else {
      var t := d[4..];
      assert AllDigits(d[..4]) && AllDigits(t) && |t| > 0;
      GroupDigitsOfDigits(t);
      ShiftByFour(|d|);
      assert GroupDigits(d) == d[..4] + " " + GroupDigits(t);
      assert Grouped(d) == d[..4] + " " + Grouped(t);
    }
  }

  lemma ShiftByFour(n: int)
    ensures (n - 4) % 4 == 0 <==> n % 4 == 0
  {
  }

  /** A grouped digit string starts and ends with a digit. */
  lemma {:induction false} GroupedEnds(d: string)
    requires AllDigits(d) && d != []
    ensures Grouped(d) != [] && IsDigit(Grouped(d)[0]) && IsDigit(Grouped(d)[|Grouped(d)| - 1])
  {
    if |d| > 4 {
      GroupedEnds(d[4..]);
    }
  }

  /** Grouping adds nothing but spaces. */
  lemma {:induction false} GroupedDigitsBack(d: string)
    requires AllDigits(d)
    ensures StripSpaces(Grouped(d)) == d
  {
    if |d| <= 4 {
      StripSpacesOfDigits(d);
    } else {
      GroupedDigitsBack(d[4..]);
      StripSpacesAppend(d[..4] + " ", Grouped(d[4..]));
      StripSpacesAppend(d[..4], " ");
      StripSpacesOfDigits(d[..4]);
      assert d[..4] + d[4..] == d;
    }
  }

  lemma StripSpacesOfDigits(d: string)
    requires AllDigits(d)
    ensures StripSpaces(d) == d
  {
    assert forall i :: 0 <= i < |d| ==> !IsSpace(d[i]) by {
      forall i | 0 <= i < |d| ensures !IsSpace(d[i]) {
        assert IsDigit(d[i]);
      }
    }
    StripSpacesKeeps(d);
  }

  /** Trimming leaves a grouped digit string alone, and removes one space
      appended to it. */
  lemma TrimGrouped(d: string)
    requires AllDigits(d) && d != []
    ensures Trim(Grouped(d)) == Grouped(d)
    ensures Trim(Grouped(d) + " ") == Grouped(d)
  {
    var g := Grouped(d);
    GroupedEnds(d);
    assert TrimStart(g) == g;
    assert TrimEnd(g) == g;
    var x := g + " ";
    assert x[0] == g[0];
    assert TrimStart(x) == x;
    assert x[..|x| - 1] == g;
  }

  /** For a field holding only digits and white space, the card-number
      formatter yields the digits in groups of four with single spaces and no
      trailing space. */
  lemma CardNumberFormat(value: string)
    requires AllDigits(StripSpaces(value))
    ensures FormatCardNumber(value) == Grouped(StripSpaces(value))
  {
    var d := StripSpaces(value);
    assert FormatCardNumber(value) == Trim(GroupDigits(d));
    TrimGroupDigits(d);
  }

  lemma TrimGroupDigits(d: string)
    requires AllDigits(d)
    ensures Trim(GroupDigits(d)) == Grouped(d)
  {
    GroupDigitsOfDigits(d);
    if d == [] {
      assert GroupDigits(d) == [];
    } else {
      TrimGrouped(d);
    }
  }

  /** Formatting a formatted number again changes nothing. */
  lemma CardNumberFormatIdempotent(value: string)
    requires AllDigits(StripSpaces(value))
    ensures FormatCardNumber(FormatCardNumber(value)) == FormatCardNumber(value)
  {
    var d := StripSpaces(value);
    CardNumberFormat(value);
    GroupedDigitsBack(d);
    CardNumberFormat(Grouped(d));
  }

  /** The 19-character cap on the formatted number admits exactly the digit
      strings of length 16 or less. */
  lemma CardNumberCap(value: string)
    requires AllDigits(StripSpaces(value))
    ensures |FormatCardNumber(value)| <= 19 <==> |StripSpaces(value)| <= 16
  {
    CardNumberFormat(value);
  }

  /** The server's card check counts the spaces the dialog inserts: a
      formatted number passes its 16-character rule from 13 digits on. */
  lemma FormattedCardLength(d: string)
    requires AllDigits(d) && 1 <= |d| <= 16
    ensures |Grouped(d)| >= 16 <==> |d| >= 13
    ensures |d| >= 13 ==> ValidateCard(Some(Grouped(d)), Some("123"), Some("12/30"))
  {
  }

  /** The expiry field after a keystroke: its digits, with a slash after the
      first two once there are at least two. */
  function FormatExpiry(value: string): (r: string)
    ensures var d := DigitsOf(value);
      && |r| <= 5
      && (|d| < 2 ==> r == d)
      && (|d| >= 2 ==> r == d[..2] + "/" + d[2..Min(4, |d|)])
  {
    var d := DigitsOf(value);
    if |d| >= 2 then d[..2] + "/" + d[2..Min(4, |d|)] else d
  }

  /** Formatting a formatted expiry again changes nothing. */
  lemma ExpiryIdempotent(value: string)
    ensures FormatExpiry(FormatExpiry(value)) == FormatExpiry(value)
  {
    var d := DigitsOf(value);
    if |d| >= 2 {
      var a := d[..2];
      var b := d[2..Min(4, |d|)];
      DigitsOfAppend(a + "/", b);
      DigitsOfAppend(a, "/");
      DigitsOfDigits(a);
      DigitsOfDigits(b);
      assert DigitsOf("/") == [];
      assert a + b == d[..Min(4, |d|)];
    } else {
      DigitsOfDigits(d);
    }
  }

  /** With two digits the slash is added at once, so deleting it from "12/"
      leaves "12", which is formatted back to "12/". */
  lemma ExpirySlashComesBack()
    ensures FormatExpiry("12") == "12/"
  {
    assert DigitsOf("12") == "12";
  }

  /** The CVV field after a keystroke: the first three digits typed. */
  function FormatCvv(value: string): (r: string)
    ensures AllDigits(r)
    ensures |r| == Min(3, |DigitsOf(value)|)
    ensures r == DigitsOf(value)[..|r|]
  {
    var d := DigitsOf(value);
    d[..Min(3, |d|)]
  }

  datatype CardField = CardNumber | CardName | Expiry | Cvv

  datatype CardDetails = CardDetails(cardNumber: string, cardName: string, expiry: string, cvv: string)

  const EmptyCard: CardDetails := CardDetails("", "", "", "")

  /** The change handler: the named field is reformatted and stored, unless
      the formatted card number or expiry is too long, in which case the
      keystroke is dropped. The other fields never change. */
  function HandleChange(st: CardDetails, field: CardField, value: string): (r: CardDetails)
    ensures field != CardNumber ==> r.cardNumber == st.cardNumber
    ensures field != CardName ==> r.cardName == st.cardName
    ensures field != Expiry ==> r.expiry == st.expiry
    ensures field != Cvv ==> r.cvv == st.cvv
    ensures field == CardNumber ==>
              r.cardNumber == (if |FormatCardNumber(value)| > 19 then st.cardNumber else FormatCardNumber(value))
    ensures field == CardName ==> r.cardName == value
    ensures field == Expiry ==> r.expiry == FormatExpiry(value)
    ensures field == Cvv ==> r.cvv == FormatCvv(value)
  {
    match field
    case CardNumber =>
      var v := FormatCardNumber(value);
      if |v| > 19 then st else st.(cardNumber := v)
    case CardName => st.(cardName := value)
    case Expiry =>
      var v := FormatExpiry(value);
      if |v| > 5 then st else st.(expiry := v)
    case Cvv => st.(cvv := FormatCvv(value))
  }

  /** What the dialog's fields satisfy at all times. */
  predicate FormInvariant(st: CardDetails)
  {
    |st.cardNumber| <= 19 && |st.expiry| <= 5 && |st.cvv| <= 3 && AllDigits(st.cvv)
  }

  /** The empty dialog satisfies the invariant and every keystroke keeps it. */
  lemma HandleChangeKeepsInvariant(st: CardDetails, field: CardField, value: string)
    requires FormInvariant(st)
    ensures FormInvariant(EmptyCard)
    ensures FormInvariant(HandleChange(st, field, value))
  {
  }

  datatype ModalMethod = ModalCard | ModalUPI | ModalNetBanking

  datatype Payload = Payload(chosen: ModalMethod, cardDetails: Option<CardDetails>,
                             upiId: Option<string>, bank: Option<string>)

  /** The submit payload: only the selected method's details are sent, the
      others are null. */
  function Submit(selected: ModalMethod, card: CardDetails, upiId: string, bank: string): (p: Payload)
    ensures p.chosen == selected
    ensures p.cardDetails.Some? <==> selected == ModalCard
    ensures p.upiId.Some? <==> selected == ModalUPI
    ensures p.bank.Some? <==> selected == ModalNetBanking
    ensures p.cardDetails.Some? ==> p.cardDetails.value == card
    ensures p.upiId.Some? ==> p.upiId.value == upiId
    ensures p.bank.Some? ==> p.bank.value == bank
  {
    Payload(selected,
            if selected == ModalCard then Some(card) else None,
            if selected == ModalUPI then Some(upiId) else None,
            if selected == ModalNetBanking then Some(bank) else None)
  }
}
