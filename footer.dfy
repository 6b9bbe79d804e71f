/**
 * The contact block of the footer (`components/sections/Footer.tsx`): the two
 * phone formatters and the fallbacks shown while the contact information is
 * missing. Formatting gives `None` where the source gives `null`.
 */
module Footer {
  import opened Wrappers
  import opened Strings
  import opened InterestForm

  // ---------------------------------------------------------------------------
  // Digits of a phone number
  // ---------------------------------------------------------------------------

  /** `phone.replace(/\D/g, '')`: the ASCII digits of `s`, in order. */
  function DigitsOf(s: string): (r: string)
    ensures |r| <= |s|
  {
    if s == [] then ""
    else (if IsDigit(s[0]) then [s[0]] else []) + DigitsOf(s[1..])
  }

  /** Only digits remain; every digit of `s` remains; stripping distributes over concatenation. */
  lemma {:induction false} DigitsOfSpec(s: string, t: string)
    ensures AllDigits(DigitsOf(s))
    ensures AllDigits(s) ==> DigitsOf(s) == s
    ensures DigitsOf(s + t) == DigitsOf(s) + DigitsOf(t)
  {
    if s != [] {
      var head: string := if IsDigit(s[0]) then [s[0]] else [];
      DigitsOfSpec(s[1..], t);
      assert DigitsOf(s) == head + DigitsOf(s[1..]);
      assert (s + t)[0] == s[0] && (s + t)[1..] == s[1..] + t;
      assert DigitsOf(s + t) == head + DigitsOf(s[1..] + t);
      AllDigitsConcat(head, DigitsOf(s[1..]));
      if AllDigits(s) {
        assert AllDigits(s[1..]) by {
          assert forall i :: 0 <= i < |s[1..]| ==> s[1..][i] == s[i + 1];
        }
        assert s == head + s[1..];
      }
    } else {
      assert s + t == t;
    }
  }

  lemma AllDigitsConcat(a: string, b: string)
    requires AllDigits(a) && AllDigits(b)
    ensures AllDigits(a + b)
  {
    assert forall i :: |a| <= i < |a + b| ==> (a + b)[i] == b[i - |a|];
  }

  // ---------------------------------------------------------------------------
  // Display format
  // ---------------------------------------------------------------------------

  /** The five pairs of a ten-digit number, separated by single spaces. */
  function Grouped(d: string): (r: string)
    requires |d| == 10
  {
    d[0..2] + " " + d[2..4] + " " + d[4..6] + " " + d[6..8] + " " + d[8..10]
  }

  /** A grouped number is fourteen characters, spaces at 2, 5, 8 and 11; its digits are `d`. */
  lemma GroupedSpec(d: string)
    requires |d| == 10 && AllDigits(d)
    ensures |Grouped(d)| == 14
    ensures forall i :: 0 <= i < 14 ==> (Grouped(d)[i] == ' ' <==> i in {2, 5, 8, 11})
    ensures DigitsOf(Grouped(d)) == d
  {
    var g := Grouped(d);
    assert g == d[0..2] + " " + d[2..4] + " " + d[4..6] + " " + d[6..8] + " " + d[8..10];
    forall i | 0 <= i < 14 ensures g[i] == ' ' <==> i in {2, 5, 8, 11} {
      assert !IsDigit(' ');
      if i !in {2, 5, 8, 11} {
        var k := if i < 2 then i else if i < 5 then i - 1 else if i < 8 then i - 2 else if i < 11 then i - 3 else i - 4;
        assert g[i] == d[k];
        assert IsDigit(d[k]);
      }
    }
    var x4 := d[8..10];
    var x3 := d[6..8] + " " + x4;
    var x2 := d[4..6] + " " + x3;
    var x1 := d[2..4] + " " + x2;
    assert g == d[0..2] + " " + x1;
    DigitsOfSpec(x4, "");
    assert x4 + "" == x4;
    DigitsAfterSpace(d[6..8], x4);
    DigitsAfterSpace(d[4..6], x3);
    DigitsAfterSpace(d[2..4], x2);
    DigitsAfterSpace(d[0..2], x1);
    assert d[0..2] + (d[2..4] + (d[4..6] + (d[6..8] + d[8..10]))) == d;
  }

  /** Stripping a digit group and the space after it. */
  lemma DigitsAfterSpace(p: string, rest: string)
    requires AllDigits(p)
    ensures DigitsOf(p + " " + rest) == p + DigitsOf(rest)
  {
    var tail := " " + rest;
    DigitsOfSpec(p, tail);
    assert p + " " + rest == p + tail;
    assert tail[1..] == rest;
    assert DigitsOf(tail) == DigitsOf(rest);
  }

  /**
   * `formatPhoneForDisplay`: nothing for an empty number; the grouped digits
   * when the number has exactly ten of them; otherwise the number as it is.
   */
  function FormatPhoneForDisplay(phone: string): (r: Option<string>)
    ensures r.None? <==> phone == ""
  {
    if phone == "" then None
    else
      var cleaned := DigitsOf(phone);
      if |cleaned| == 10 then Some(Grouped(cleaned)) else Some(phone)
  }

  /** The two non-empty cases of the display format. */
  lemma DisplaySpec(phone: string)
    requires phone != ""
    ensures var cleaned := DigitsOf(phone); var r := FormatPhoneForDisplay(phone).value;
      (|cleaned| == 10 ==>
        |r| == 14 && DigitsOf(r) == cleaned && forall i :: 0 <= i < 14 ==> (r[i] == ' ' <==> i in {2, 5, 8, 11})) &&
      (|cleaned| != 10 ==> r == phone)
  {
    DigitsOfSpec(phone, "");
    if |DigitsOf(phone)| == 10 {
      GroupedSpec(DigitsOf(phone));
    }
  }

  /** Formatting a displayed number again changes nothing. */
  lemma DisplayIdempotent(phone: string)
    requires phone != ""
    ensures FormatPhoneForDisplay(FormatPhoneForDisplay(phone).value) == FormatPhoneForDisplay(phone)
  {
    DisplaySpec(phone);
  }

  // ---------------------------------------------------------------------------
  // Link format
  // ---------------------------------------------------------------------------

  /** `formatPhoneForLink`: nothing for an empty number; an international number as it is; else `+33` for one leading `0`. */
  function FormatPhoneForLink(phone: string): (r: Option<string>)
    ensures r.None? <==> phone == ""
    ensures r.Some? ==> |r.value| > 0 && r.value[0] == '+'
    ensures r.Some? && phone[0] == '+' ==> r.value == phone
    ensures r.Some? && phone[0] != '+' ==> r.value == "+33" + (if phone[0] == '0' then phone[1..] else phone)
  {
    if phone == "" then None
    else if StartsWithChar(phone, '+') then Some(phone)
    else Some("+33" + (if phone[0] == '0' then phone[1..] else phone))
  }

  /** A link is its own link. */
  lemma LinkIdempotent(phone: string)
    requires phone != ""
    ensures FormatPhoneForLink(FormatPhoneForLink(phone).value) == FormatPhoneForLink(phone)
  {
  }

  /** The link of a valid national number (as the interest form accepts it) is the valid international one. */
  lemma LinkOfFrenchPhone(phone: string)
    requires IsFrenchPhone(phone) && phone[0] == '0'
    ensures FormatPhoneForLink(phone) == Some("+33" + phone[1..])
    ensures IsFrenchPhone(FormatPhoneForLink(phone).value)
    ensures FormatPhoneForDisplay(phone) == Some(Grouped(phone))
  {
    assert phone == "0" + phone[1..];
    PhonePrefixesAgree(phone[1..]);
    assert AllDigits(phone) by {
      assert forall i :: 2 <= i < |phone| ==> phone[i] == phone[2..][i - 2];
    }
    DigitsOfSpec(phone, "");
  }

  // ---------------------------------------------------------------------------
  // The contact block
  // ---------------------------------------------------------------------------

  /** The two fields of `ContactInfo` the footer formats. */
  datatype ContactInfo = ContactInfo(email: string, phoneNumber: string)

  const FallbackEmail: string := "contact@lag-holding.fr"
  const FallbackPhone: string := "01 23 45 67 89"
  const FallbackPhoneLink: string := "+33123456789"

  /** What the block shows: the `mailto:` address, the phone text and the `tel:` target. */
  datatype ContactBlock = ContactBlock(email: string, phone: string, phoneLink: string)

  /** `displayEmail`, `displayPhone` and `phoneLink`; `contact` is `None` while loading or after a failure. */
  function ContactBlockOf(contact: Option<ContactInfo>): (r: ContactBlock)
    ensures r.email != "" && r.phone != "" && |r.phoneLink| > 0 && r.phoneLink[0] == '+'
    ensures contact.None? || contact.value.email == "" ==> r.email == FallbackEmail
    ensures contact.Some? && contact.value.email != "" ==> r.email == contact.value.email
    ensures contact.None? || contact.value.phoneNumber == "" ==>
      r.phone == FallbackPhone && r.phoneLink == FallbackPhoneLink
    ensures contact.Some? && contact.value.phoneNumber != "" ==>
      Some(r.phone) == FormatPhoneForDisplay(contact.value.phoneNumber) &&
      Some(r.phoneLink) == FormatPhoneForLink(contact.value.phoneNumber)
  {
    var email := if contact.Some? && contact.value.email != "" then contact.value.email else FallbackEmail;
    if contact.Some? && contact.value.phoneNumber != "" then
      var phone := contact.value.phoneNumber;
      ContactBlock(email, FormatPhoneForDisplay(phone).value, FormatPhoneForLink(phone).value)
    else
      ContactBlock(email, FallbackPhone, FallbackPhoneLink)
  }

  /** The fallback phone is the display format of the national number `0123456789`. */
  lemma FallbackPhoneAgrees()
    ensures FormatPhoneForDisplay("0123456789") == Some(FallbackPhone)
  {
    FallbackDigits();
    DisplayOfTenDigits("0123456789");
    GroupedPairs("01", "23", "45", "67", "89");
    FallbackSpaced();
  }

  lemma FallbackDigits()
    ensures AllDigits("0123456789") && "0123456789" == "01" + "23" + "45" + "67" + "89"
  {
  }

  lemma FallbackSpaced()
    ensures "01" + " " + "23" + " " + "45" + " " + "67" + " " + "89" == FallbackPhone
  {
  }

  /** Grouping five pairs puts them back with a space between each two. */
  lemma GroupedPairs(a: string, b: string, c: string, d: string, e: string)
    requires |a| == 2 && |b| == 2 && |c| == 2 && |d| == 2 && |e| == 2
    ensures Grouped(a + b + c + d + e) == a + " " + b + " " + c + " " + d + " " + e
  {
    var n := a + b + c + d + e;
    assert n[0..2] == a && n[2..4] == b && n[4..6] == c && n[6..8] == d && n[8..10] == e;
  }

  /** Ten digits and nothing else are grouped in pairs. */
  lemma DisplayOfTenDigits(n: string)
    requires |n| == 10 && AllDigits(n)
    ensures FormatPhoneForDisplay(n) == Some(Grouped(n))
  {
    DigitsOfSpec(n, "");
  }

  /** Formatting the fallback phone for display leaves it as it is. */
  lemma FallbackPhoneIsDisplayed()
    ensures FormatPhoneForDisplay(FallbackPhone) == Some(FallbackPhone)
  {
    FallbackPhoneAgrees();
    DisplayIdempotent("0123456789");
  }

  /** The fallback link is the link format of the same number. */
  lemma FallbackLinkAgrees()
    ensures FormatPhoneForLink("0123456789") == Some(FallbackPhoneLink)
  {
    var n := "0123456789";
    assert n[0] == '0' && !StartsWithChar(n, '+');
    assert n[1..] == "123456789";
    assert "+33" + "123456789" == FallbackPhoneLink;
  }
}
