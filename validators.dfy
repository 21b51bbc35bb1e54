/**
  * `ValidationUtils` (bot/utils/validators.py): each validator maps raw chat
  * text to the pair `(ok, value)` the Python code returns, where `value` is
  * the normalised input on success and an error message or a neutral value
  * on failure. The wall clock the date validators read is a parameter `now`.
  */
module Validators {
  import opened Text
  import opened Civil
  import opened TimeFormat

  /** The `(bool, value)` tuple every validator returns. */
  datatype Checked<T> = Checked(ok: bool, value: T)

  // =====================================================================
  // validate_name

  const NameTooShort := "Name must be at least 2 characters long"
  const NameTooLong := "Name cannot exceed 50 characters"
  const NameBadChars := "Name can only contain letters, spaces, hyphens, and apostrophes"

  /** The class `[a-zA-Z\s\-']`. */
  predicate IsNameChar(c: char) {
    IsLetter(c) || IsWhitespace(c) || c == '-' || c == '\''
  }

  function ValidateName(name: string): (r: Checked<string>)
    ensures r.ok <==> 2 <= |Trim(name)| <= 50 && All(Trim(name), IsNameChar)
    ensures r.ok ==> |r.value| == |Trim(name)| && r.value == Title(Trim(name))
    ensures !r.ok && |Trim(name)| < 2 ==> r.value == NameTooShort
    ensures !r.ok && |Trim(name)| > 50 ==> r.value == NameTooLong
    ensures !r.ok && 2 <= |Trim(name)| <= 50 ==> r.value == NameBadChars
  {
    var t := Trim(name);
    if name == [] || |t| < 2 then Checked(false, NameTooShort)
    else if |t| > 50 then Checked(false, NameTooLong)
    else if !All(t, IsNameChar) then Checked(false, NameBadChars)
    else Checked(true, Title(t))
  }

  /** Title-casing keeps a name's characters in the class and its ends free of whitespace. */
  lemma TitleKeepsName(t: string)
    requires IsTrimmed(t) && All(t, IsNameChar)
    ensures IsTrimmed(Title(t)) && All(Title(t), IsNameChar) && |Title(t)| == |t|
  {
    TitleKeepsClasses(t);
    var v := Title(t);
    assert forall i :: 0 <= i < |v| ==> IsNameChar(t[i]);
  }

  /** An accepted name is accepted again and comes back unchanged. */
  lemma NameFixedPoint(name: string)
    requires ValidateName(name).ok
    ensures ValidateName(ValidateName(name).value) == ValidateName(name)
  {
    var t := Trim(name);
    var v := Title(t);
    TrimIsTrimmed(name);
    TitleKeepsName(t);
    TrimmedFixed(v);
    TitleIdempotent(t);
  }

  // =====================================================================
  // validate_company_name

  const CompanyTooLong := "Company name cannot exceed 100 characters"
  const CompanyBadChars := "Company name contains invalid characters"

  /** The class `[a-zA-Z0-9\s\-'&.,()]`. */
  predicate IsCompanyChar(c: char) {
    IsAlnum(c) || IsWhitespace(c) || c == '-' || c == '\'' || c == '&' || c == '.' || c == ',' || c == '(' || c == ')'
  }

  /**
    * Only the raw empty string counts as "no company"; text made only of
    * whitespace strips to the empty string, which the `+` in the pattern
    * then rejects.
    */
  function ValidateCompanyName(companyName: string): (r: Checked<string>)
    ensures r.ok <==> companyName == [] || (0 < |Trim(companyName)| <= 100 && All(Trim(companyName), IsCompanyChar))
    ensures r.ok ==> r.value == Trim(companyName)
    ensures !r.ok ==> r.value == (if |Trim(companyName)| > 100 then CompanyTooLong else CompanyBadChars)
  {
    var t := Trim(companyName);
    if companyName == [] then Checked(true, "")
    else if |t| > 100 then Checked(false, CompanyTooLong)
    else if t == [] || !All(t, IsCompanyChar) then Checked(false, CompanyBadChars)
    else Checked(true, t)
  }

  /** An accepted company name is accepted again and comes back unchanged. */
  lemma CompanyFixedPoint(companyName: string)
    requires ValidateCompanyName(companyName).ok
    ensures ValidateCompanyName(ValidateCompanyName(companyName).value) == ValidateCompanyName(companyName)
  {
    TrimIdempotent(companyName);
  }

  // =====================================================================
  // validate_quantity

  const MaxQuantity := 100000

  function ValidateQuantity(quantityText: string): (r: Checked<int>)
    ensures r.ok <==> ParseInt(Trim(quantityText)).Some? && 1 <= ParseInt(Trim(quantityText)).value <= MaxQuantity
    ensures r.ok ==> r.value == ParseInt(Trim(quantityText)).value
    ensures !r.ok ==> r.value == 0
  {
    match ParseInt(Trim(quantityText))
    case None => Checked(false, 0)
    case Some(q) =>
      if q <= 0 then Checked(false, 0)
      else if q > MaxQuantity then Checked(false, 0)
      else Checked(true, q)
  }

  /** Every quantity in range, written in decimal, is accepted as itself. */
  lemma QuantityRoundTrip(q: int)
    requires 1 <= q <= MaxQuantity
    ensures ValidateQuantity(IntToString(q)) == Checked(true, q)
  {
    IntToStringRoundTrip(q);
    IntToStringTrimmed(q);
  }

  // =====================================================================
  // validate_contact_info

  /** The class `[a-zA-Z0-9._%+-]` before the `@`. */
  predicate IsLocalChar(c: char) {
    IsAlnum(c) || c == '.' || c == '_' || c == '%' || c == '+' || c == '-'
  }

  /** The class `[a-zA-Z0-9.-]` after the `@`. */
  predicate IsDomainChar(c: char) {
    IsAlnum(c) || c == '.' || c == '-'
  }

  /** `[a-zA-Z0-9.-]+\.[a-zA-Z]{2,}`, split at the dot at index `j`. */
  predicate DomainSplitAt(d: string, j: int) {
    0 < j && j + 3 <= |d| && d[j] == '.' && All(d[..j], IsDomainChar) && All(d[j + 1..], IsLetter)
  }

  predicate IsEmailDomain(d: string) {
    exists j :: 0 <= j < |d| && DomainSplitAt(d, j)
  }

  /** `^[a-zA-Z0-9._%+-]+@...$`, split at the `@` at index `i`. */
  predicate EmailSplitAt(s: string, i: int) {
    0 < i < |s| && s[i] == '@' && All(s[..i], IsLocalChar) && IsEmailDomain(s[i + 1..])
  }

  /** The text matches the e-mail pattern (it has no trailing newline, as stripped text never has). */
  predicate IsEmail(s: string) {
    exists i :: 0 <= i < |s| && EmailSplitAt(s, i)
  }

  /**
    * The characters `re.sub(r'[\\s\\-\\(\\)\\+]', '', contact)` removes. In a
    * raw string `\\` is an escaped backslash, so the class holds a backslash,
    * the letter `s`, the range from backslash to backslash, and `(`, `)`, `+`.
    */
  predicate StrippedAsWritten(c: char) {
    c == '\\' || c == 's' || c == '(' || c == ')' || c == '+'
  }

  /** `[0-9]{6,15}$`, where `$` also matches before a final newline. */
  predicate DigitsToEnd(t: string) {
    (6 <= |t| <= 15 && All(t, IsDigit))
    || (|t| > 0 && t[|t| - 1] == '\n' && 6 <= |t| - 1 <= 15 && All(t[..|t| - 1], IsDigit))
  }

  /** `re.match(r'^\\+?[0-9]{6,15}$', phone)`: one or more backslashes, then the digits. */
  predicate PhonePatternAsWritten(p: string) {
    exists k :: 1 <= k <= |p| && All(p[..k], c => c == '\\') && DigitsToEnd(p[k..])
  }

  function ValidateContactInfo(contact: string): (r: Checked<string>)
    ensures !r.ok ==> r.value == ""
    ensures Trim(contact) == [] ==> !r.ok
    ensures IsEmail(Trim(contact)) ==> r == Checked(true, Lower(Trim(contact)))
  {
    var t := Trim(contact);
    if t == [] then Checked(false, "")
    else if IsEmail(t) then Checked(true, Lower(t))
    else if PhonePatternAsWritten(RemoveWhere(t, StrippedAsWritten)) then Checked(true, t)
    else Checked(false, "")
  }

  /** The phone branch as written: stripping removes every backslash, and the pattern needs one first. */
  lemma PhoneBranchNeverAccepts(contact: string)
    ensures !PhonePatternAsWritten(RemoveWhere(Trim(contact), StrippedAsWritten))
  {
    var p := RemoveWhere(Trim(contact), StrippedAsWritten);
    forall k | 1 <= k <= |p|
      ensures !All(p[..k], c => c == '\\')
    {
      assert p[..k][0] == p[0];
    }
  }

  /** As written, exactly the e-mail addresses are accepted, lower-cased. */
  lemma ContactAcceptsOnlyEmail(contact: string)
    ensures ValidateContactInfo(contact).ok <==> IsEmail(Trim(contact))
    ensures ValidateContactInfo(contact).ok ==> ValidateContactInfo(contact).value == Lower(Trim(contact))
  {
    PhoneBranchNeverAccepts(contact);
  }

  /** The characters the comment at the strip intends to remove: whitespace, `-`, `(`, `)`, `+`. */
  predicate FormattingChar(c: char) {
    IsWhitespace(c) || c == '-' || c == '(' || c == ')' || c == '+'
  }

  /** `^\+?[0-9]{6,15}$`: an optional plus, then 6 to 15 digits. */
  predicate PhonePatternIntended(p: string) {
    DigitsToEnd(p) || (|p| > 0 && p[0] == '+' && DigitsToEnd(p[1..]))
  }

  /** The contact rule the phone branch's comment describes. */
  function ValidateContactInfoIntended(contact: string): (r: Checked<string>)
    ensures !r.ok ==> r.value == ""
    ensures Trim(contact) == [] ==> !r.ok
    ensures IsEmail(Trim(contact)) ==> r == Checked(true, Lower(Trim(contact)))
    ensures r.ok && !IsEmail(Trim(contact)) ==> r.value == Trim(contact)
  {
    var t := Trim(contact);
    if t == [] then Checked(false, "")
    else if IsEmail(t) then Checked(true, Lower(t))
    else if PhonePatternIntended(RemoveWhere(t, FormattingChar)) then Checked(true, t)
    else Checked(false, "")
  }

  /** The number of decimal digits in the text. */
  function DigitCount(s: string): (n: nat)
    ensures n <= |s|
  {
    if s == [] then 0 else (if IsDigit(s[0]) then 1 else 0) + DigitCount(s[1..])
  }

  predicate PhoneChar(c: char) {
    IsDigit(c) || FormattingChar(c)
  }

  /**
    * The phone numbers of the intended rule, described without the strip:
    * digits, whitespace, `-`, `(`, `)` and `+` only, and 6 to 15 digits.
    * The strip removes every `+`, so the pattern's optional leading `+`
    * never sees one and a `+` may stand anywhere.
    */
  predicate PhoneShaped(t: string) {
    All(t, PhoneChar) && 6 <= DigitCount(t) <= 15
  }

  /** After the strip only digits are left exactly when the text has only digits and formatting characters. */
  lemma {:induction false} StrippedDigits(t: string)
    ensures All(RemoveWhere(t, FormattingChar), IsDigit) <==> All(t, PhoneChar)
    ensures All(t, PhoneChar) ==> |RemoveWhere(t, FormattingChar)| == DigitCount(t)
  {
    if t != [] {
      StrippedDigits(t[1..]);
      AllFirst(t, PhoneChar);
      var r := RemoveWhere(t, FormattingChar);
      if !FormattingChar(t[0]) {
        assert r[0] == t[0] && r[1..] == RemoveWhere(t[1..], FormattingChar);
        AllFirst(r, IsDigit);
      }
    }
  }

  lemma AllFirst(s: string, p: char -> bool)
    requires |s| > 0
    ensures All(s, p) <==> p(s[0]) && All(s[1..], p)
  {
    if p(s[0]) && All(s[1..], p) {
      forall k | 0 < k < |s| ensures p(s[k]) {
        assert s[k] == s[1..][k - 1];
      }
    }
  }

  /** Stripped text has no `+` and no newline left, so the intended pattern asks for 6 to 15 digits and nothing else. */
  lemma IntendedPatternOnStripped(t: string)
    ensures PhonePatternIntended(RemoveWhere(t, FormattingChar))
        <==> 6 <= |RemoveWhere(t, FormattingChar)| <= 15 && All(RemoveWhere(t, FormattingChar), IsDigit)
  {
    var p := RemoveWhere(t, FormattingChar);
    if |p| > 0 {
      assert !FormattingChar(p[0]) && !FormattingChar(p[|p| - 1]);
    }
  }

  /** Text that is not an e-mail address is accepted by the intended rule exactly when it is phone-shaped. */
  lemma ContactIntendedPhoneRule(contact: string)
    ensures !IsEmail(Trim(contact)) ==> (ValidateContactInfoIntended(contact).ok <==> PhoneShaped(Trim(contact)))
  {
    StrippedDigits(Trim(contact));
    IntendedPatternOnStripped(Trim(contact));
  }

  /** No phone-shaped text has an `@`, so none is an e-mail address. */
  lemma PhoneShapedNotEmail(t: string)
    requires All(t, PhoneChar)
    ensures !IsEmail(t)
  {
    forall i | 0 <= i < |t|
      ensures !EmailSplitAt(t, i)
    {
      assert PhoneChar(t[i]);
    }
  }

  /**
    * A phone number with separators, such as `+251 91-123(4567)`: the
    * intended rule accepts it as typed (stripped of surrounding
    * whitespace), the code as written rejects it.
    */
  lemma PhoneShapedAccepted(contact: string)
    requires PhoneShaped(Trim(contact))
    ensures ValidateContactInfoIntended(contact) == Checked(true, Trim(contact))
    ensures ValidateContactInfo(contact) == Checked(false, "")
  {
    PhoneShapedNotEmail(Trim(contact));
    ContactIntendedPhoneRule(contact);
    ContactAcceptsOnlyEmail(contact);
  }

  lemma DigitsTrimmed(digits: string)
    requires |digits| > 0 && All(digits, IsDigit)
    ensures Trim(digits) == digits
  {
    assert IsTrimmed(digits);
    TrimmedFixed(digits);
  }

  /** A concrete phone number the code as written turns away. */
  lemma PhoneRejectedExample()
    ensures ValidateContactInfo("0911234567") == Checked(false, "")
    ensures ValidateContactInfoIntended("0911234567") == Checked(true, "0911234567")
  {
    var t := "0911234567";
    DigitsTrimmed(t);
    assert DigitCount(t) == 10;
    PhoneShapedAccepted(t);
  }

  lemma {:induction false} DigitCountAppend(a: string, b: string)
    ensures DigitCount(a + b) == DigitCount(a) + DigitCount(b)
  {
    if a == [] {
      assert a + b == b;
    } else {
      assert (a + b)[0] == a[0] && (a + b)[1..] == a[1..] + b;
      DigitCountAppend(a[1..], b);
    }
  }

  lemma {:induction false} DigitsCounted(d: string)
    requires All(d, IsDigit)
    ensures DigitCount(d) == |d| && All(d, PhoneChar)
  {
    if d != [] {
      AllFirst(d, IsDigit);
      DigitsCounted(d[1..]);
    }
  }

  /** Gluing two phone-shaped pieces: the characters stay phone characters and the digits add up. */
  lemma PhoneAppend(a: string, b: string)
    requires All(a, PhoneChar) && All(b, PhoneChar)
    ensures All(a + b, PhoneChar) && DigitCount(a + b) == DigitCount(a) + DigitCount(b)
  {
    DigitCountAppend(a, b);
    forall k | 0 <= k < |a + b| ensures PhoneChar((a + b)[k]) {
      if k >= |a| { assert (a + b)[k] == b[k - |a|]; }
    }
  }

  /** The text `+CC AA-NNN(NNNN)` is phone-shaped when its four digit groups hold 6 to 15 digits. */
  lemma SeparatedPhoneShape(a: string, b: string, c: string, d: string)
    requires All(a, IsDigit) && All(b, IsDigit) && All(c, IsDigit) && All(d, IsDigit)
    requires 6 <= |a| + |b| + |c| + |d| <= 15
    ensures PhoneShaped("+" + a + " " + b + "-" + c + "(" + d + ")")
  {
    DigitsCounted(a);
    DigitsCounted(b);
    DigitsCounted(c);
    DigitsCounted(d);
    var t1 := "+" + a;
    PhoneAppend("+", a);
    var t2 := t1 + " ";
    PhoneAppend(t1, " ");
    var t3 := t2 + b;
    PhoneAppend(t2, b);
    var t4 := t3 + "-";
    PhoneAppend(t3, "-");
    var t5 := t4 + c;
    PhoneAppend(t4, c);
    var t6 := t5 + "(";
    PhoneAppend(t5, "(");
    var t7 := t6 + d;
    PhoneAppend(t6, d);
    var t := t7 + ")";
    PhoneAppend(t7, ")");
  }

  /**
    * A number written as `+CC AA-NNN(NNNN)`, its four digit groups holding
    * 6 to 15 digits in all: the intended rule accepts it as typed.
    */
  lemma SeparatedPhoneNumber(a: string, b: string, c: string, d: string)
    requires All(a, IsDigit) && All(b, IsDigit) && All(c, IsDigit) && All(d, IsDigit)
    requires 6 <= |a| + |b| + |c| + |d| <= 15
    ensures ValidateContactInfoIntended("+" + a + " " + b + "-" + c + "(" + d + ")")
         == Checked(true, "+" + a + " " + b + "-" + c + "(" + d + ")")
    ensures ValidateContactInfo("+" + a + " " + b + "-" + c + "(" + d + ")") == Checked(false, "")
  {
    var t := "+" + a + " " + b + "-" + c + "(" + d + ")";
    SeparatedPhoneShape(a, b, c, d);
    assert t[0] == '+' && t[|t| - 1] == ')';
    TrimmedFixed(t);
    PhoneShapedAccepted(t);
  }

  /** The same for a concrete number with a country code. */
  lemma SeparatedPhoneExample()
    ensures ValidateContactInfoIntended("+251 91-123(4567)") == Checked(true, "+251 91-123(4567)")
    ensures ValidateContactInfo("+251 91-123(4567)") == Checked(false, "")
  {
    assert "+" + "251" + " " + "91" + "-" + "123" + "(" + "4567" + ")" == "+251 91-123(4567)";
    SeparatedPhoneNumber("251", "91", "123", "4567");
  }

  // Normalised contacts are fixed points

  /** Lower-casing keeps whitespace where it is, so trimmed text stays trimmed. */
  lemma LowerTrimmed(t: string)
    requires IsTrimmed(t)
    ensures Trim(Lower(t)) == Lower(t)
  {
    assert IsTrimmed(Lower(t));
    TrimmedFixed(Lower(t));
  }

  lemma LowerIdempotent(t: string)
    ensures Lower(Lower(t)) == Lower(t)
  {
  }

  /** Lower-casing a slice is slicing the lower-cased text. */
  lemma LowerSlices(t: string, i: nat)
    requires i <= |t|
    ensures Lower(t)[..i] == Lower(t[..i]) && Lower(t)[i..] == Lower(t[i..])
  {
  }

  /** A character class closed under lower-casing still holds of every character after it. */
  lemma LowerKeepsClass(s: string, p: char -> bool)
    requires All(s, p)
    requires forall c :: p(c) ==> p(ToLower(c))
    ensures All(Lower(s), p)
  {
    forall k | 0 <= k < |s| ensures p(Lower(s)[k]) {
      assert p(s[k]);
    }
  }

  lemma LowerKeepsDomain(d: string, j: int)
    requires DomainSplitAt(d, j)
    ensures DomainSplitAt(Lower(d), j)
  {
    LowerSlices(d, j);
    LowerSlices(d, j + 1);
    LowerKeepsClass(d[..j], IsDomainChar);
    LowerKeepsClass(d[j + 1..], IsLetter);
  }

  /** Lower-casing an e-mail address gives an e-mail address: every class of the pattern is closed under it. */
  lemma LowerKeepsEmail(t: string)
    requires IsEmail(t)
    ensures IsEmail(Lower(t))
  {
    var i :| 0 <= i < |t| && EmailSplitAt(t, i);
    var d := t[i + 1..];
    var j :| 0 <= j < |d| && DomainSplitAt(d, j);
    LowerSlices(t, i);
    LowerSlices(t, i + 1);
    LowerKeepsClass(t[..i], IsLocalChar);
    LowerKeepsDomain(d, j);
    assert EmailSplitAt(Lower(t), i);
  }

  /** A contact accepted by the code as written is accepted again, unchanged, when its normal form is entered. */
  lemma ContactFixedPoint(contact: string)
    ensures ValidateContactInfo(contact).ok ==> ValidateContactInfo(ValidateContactInfo(contact).value) == ValidateContactInfo(contact)
  {
    var t := Trim(contact);
    ContactAcceptsOnlyEmail(contact);
    if IsEmail(t) {
      TrimIsTrimmed(contact);
      LowerTrimmed(t);
      LowerKeepsEmail(t);
      LowerIdempotent(t);
      ContactAcceptsOnlyEmail(Lower(t));
    }
  }

  /** The same for the intended rule, whose accepted phone numbers are kept as typed. */
  lemma ContactIntendedFixedPoint(contact: string)
    ensures ValidateContactInfoIntended(contact).ok ==> ValidateContactInfoIntended(ValidateContactInfoIntended(contact).value) == ValidateContactInfoIntended(contact)
  {
    var t := Trim(contact);
    TrimIsTrimmed(contact);
    if IsEmail(t) {
      LowerTrimmed(t);
      LowerKeepsEmail(t);
      LowerIdempotent(t);
    } else {
      TrimIdempotent(contact);
    }
  }

  /** Which of the two contact rules a conversation applies. */
  datatype ContactRule = AsWritten | Intended

  function ValidateContact(rule: ContactRule, contact: string): (r: Checked<string>)
    ensures !r.ok ==> r.value == ""
    ensures r.ok ==> r.value == Lower(Trim(contact)) || r.value == Trim(contact)
  {
    match rule
    case AsWritten => ContactAcceptsOnlyEmail(contact); ValidateContactInfo(contact)
    case Intended => ValidateContactInfoIntended(contact)
  }

  // =====================================================================
  // format_contact_display

  /**
    * The prefixes as the source file spells them: the UTF-8 bytes of the
    * e-mail and telephone emoji decoded as Windows-1252 (U+00F0 U+0178
    * U+201C, then U+00A7 or U+017E), followed by a space.
    */
  const EmailBadge := "\U{F0}\U{178}\U{201C}\U{A7} "
  const PhoneBadge := "\U{F0}\U{178}\U{201C}\U{17E} "

  function FormatContactDisplay(contact: string): (r: string)
    ensures |r| == |contact| + 5 && r[5..] == contact
    ensures ContainsChar(contact, '@') <==> r[..5] == EmailBadge
    ensures !ContainsChar(contact, '@') <==> r[..5] == PhoneBadge
  {
    if ContainsChar(contact, '@') then EmailBadge + contact else PhoneBadge + contact
  }

  // =====================================================================
  // validate_message_text

  const MessageTooShort := "Message is too short (minimum 5 characters)"
  const MessageTooLong := "Message is too long (maximum 1000 characters)"

  function ValidateMessageText(message: string): (r: Checked<string>)
    ensures r.ok <==> 5 <= |Trim(message)| <= 1000
    ensures r.ok ==> r.value == Trim(message)
    ensures Trim(message) == [] ==> r == Checked(false, "")
    ensures 0 < |Trim(message)| < 5 ==> r == Checked(false, MessageTooShort)
    ensures |Trim(message)| > 1000 ==> r == Checked(false, MessageTooLong)
  {
    var t := Trim(message);
    if t == [] then Checked(false, "")
    else if |t| < 5 then Checked(false, MessageTooShort)
    else if |t| > 1000 then Checked(false, MessageTooLong)
    else Checked(true, t)
  }

  // =====================================================================
  // Trying strptime formats in order

  /** The first format of the list that `strptime` accepts the text with, and what it parsed. */
  function FirstParse(formats: seq<seq<Item>>, t: string): (r: Option<Moment>)
    ensures r.Some? ==> exists i :: 0 <= i < |formats| && Strptime(formats[i], t) == r
    ensures r.None? <==> forall i :: 0 <= i < |formats| ==> Strptime(formats[i], t).None?
    ensures r.Some? ==> IsValidDate(r.value.date)
  {
    if formats == [] then None
    else match Strptime(formats[0], t)
      case Some(m) => Some(m)
      case None =>
        var rest := FirstParse(formats[1..], t);
        assert forall i :: 1 <= i < |formats| ==> formats[i] == formats[1..][i - 1];
        rest
  }

  lemma FirstParseHead(formats: seq<seq<Item>>, t: string)
    requires formats != [] && Strptime(formats[0], t).Some?
    ensures FirstParse(formats, t) == Strptime(formats[0], t)
  {
  }

  lemma FirstParseSkip(formats: seq<seq<Item>>, t: string)
    requires formats != [] && Strptime(formats[0], t).None?
    ensures FirstParse(formats, t) == FirstParse(formats[1..], t)
  {
  }

  // =====================================================================
  // validate_delivery_date

  const DeliveryFormats: seq<seq<Item>> := [DmySlash, DmyDash, DmyDot, YmdDash, MdySlash]

  /** From tomorrow to 365 days after today, both included. */
  predicate InDeliveryWindow(today: Date, d: Date)
    requires IsValidDate(today) && IsValidDate(d)
  {
    Ordinal(today) + 1 <= Ordinal(d) <= Ordinal(today) + 365
  }

  /**
    * The source compares the parsed date (at midnight) with tomorrow at
    * midnight and with `now` plus 365 days. For the dates one and 365 days
    * after today those comparisons are exactly the window on ordinals.
    */
  lemma WindowIsDatetimeComparison(now: Moment, d: Date, tomorrow: Date, latest: Date)
    requires IsValidMoment(now) && IsValidDate(d) && IsValidDate(tomorrow) && IsValidDate(latest)
    requires Ordinal(tomorrow) == Ordinal(now.date) + 1 && Ordinal(latest) == Ordinal(now.date) + 365
    ensures InDeliveryWindow(now.date, d)
        <==> !MomentBefore(Midnight(d), Midnight(tomorrow))
             && !MomentBefore(Moment(latest, now.hour, now.minute, now.second, now.micro), Midnight(d))
  {
    OrdinalOrder(d, tomorrow);
    OrdinalOrder(latest, d);
  }

  /** What `validate_delivery_date(dateText)` returns when the clock reads `now`. */
  function DeliveryVerdict(now: Moment, dateText: string): (r: Checked<string>)
    requires IsValidDate(now.date)
    ensures var p := FirstParse(DeliveryFormats, Trim(dateText));
            r.ok <==> p.Some? && InDeliveryWindow(now.date, p.value.date)
    ensures var p := FirstParse(DeliveryFormats, Trim(dateText));
            r.ok ==> r.value == FormatDmy(p.value.date)
    ensures !r.ok ==> r.value == ""
  {
    match FirstParse(DeliveryFormats, Trim(dateText))
    case None => Checked(false, "")
    case Some(m) =>
      if Ordinal(m.date) < Ordinal(now.date) + 1 then Checked(false, "")
      else if Ordinal(m.date) > Ordinal(now.date) + 365 then Checked(false, "")
      else Checked(true, FormatDmy(m.date))
  }

  /** Any date in the window, written as `DD/MM/YYYY`, is accepted and comes back as written. */
  lemma DeliveryAcceptsFormatted(now: Moment, d: Date)
    requires IsValidDate(now.date) && IsValidDate(d) && InDeliveryWindow(now.date, d)
    ensures DeliveryVerdict(now, FormatDmy(d)) == Checked(true, FormatDmy(d))
  {
    var s := FormatDmy(d);
    assert IsTrimmed(s);
    TrimmedFixed(s);
    ParseFormatDmy(d);
    FirstParseHead(DeliveryFormats, s);
  }

  /** The normalised date the validator returns is itself accepted, unchanged. */
  lemma DeliveryFixedPoint(now: Moment, dateText: string)
    requires IsValidDate(now.date) && DeliveryVerdict(now, dateText).ok
    ensures DeliveryVerdict(now, DeliveryVerdict(now, dateText).value) == DeliveryVerdict(now, dateText)
  {
    var m := FirstParse(DeliveryFormats, Trim(dateText)).value;
    DeliveryAcceptsFormatted(now, m.date);
  }

  /** Tries each format in turn and stops at the first that parses. */
  method ParseFirst(formats: seq<seq<Item>>, t: string) returns (parsed: Option<Moment>)
    ensures parsed == FirstParse(formats, t)
  {
    parsed := None;
    var i := 0;
    while i < |formats|
      invariant 0 <= i <= |formats|
      invariant FirstParse(formats, t) == FirstParse(formats[i..], t)
    {
      var attempt := Strptime(formats[i], t);
      if attempt.Some? {
        FirstParseHead(formats[i..], t);
        return attempt;
      }
      FirstParseSkip(formats[i..], t);
      assert formats[i..][1..] == formats[i + 1..];
      i := i + 1;
    }
  }

  /** The loop over the formats, then the window check, as the source runs them. */
  method ValidateDeliveryDate(dateText: string, now: Moment) returns (ok: bool, value: string)
    requires IsValidDate(now.date)
    ensures Checked(ok, value) == DeliveryVerdict(now, dateText)
  {
    var parsed := ParseFirst(DeliveryFormats, Trim(dateText));
    if parsed.None? {
      return false, "";
    }
    var d := parsed.value.date;
    if Ordinal(d) < Ordinal(now.date) + 1 {
      return false, "";
    }
    if Ordinal(d) > Ordinal(now.date) + 365 {
      return false, "";
    }
    return true, FormatDmy(d);
  }

  // =====================================================================
  // validate_datetime_preference

  const PreferenceFormats: seq<seq<Item>> := [DmySlashTime, DmyDashTime, YmdDashTime, DmySlashClock]

  const WeekendTag := " (Weekend - will confirm availability)"
  const OffHoursTag := " (Outside business hours - will confirm availability)"
  const LaterTag := " (Will confirm specific time)"

  predicate IsWeekend(d: Date)
    requires IsValidDate(d)
  {
    Weekday(d) >= 5
  }

  /** Business hours are 08:00 to 18:59: only the hour is looked at. */
  predicate OutsideBusinessHours(m: Moment) {
    m.hour < 8 || m.hour > 18
  }

  /** The verdict on text that parsed as the moment `m`. */
  function JudgeParsed(now: Moment, t: string, m: Moment): (r: Checked<string>)
    requires IsValidDate(m.date)
    ensures !r.ok ==> r.value == ""
    ensures r.ok ==> StartsWith(r.value, t)
  {
    Tagged(t, WeekendTag);
    Tagged(t, OffHoursTag);
    assert t[..|t|] == t;
    if MomentAtMost(m, now) then Checked(false, "")
    else if IsWeekend(m.date) then Checked(true, t + WeekendTag)
    else if OutsideBusinessHours(m) then Checked(true, t + OffHoursTag)
    else Checked(true, t)
  }

  lemma Tagged(t: string, tag: string)
    ensures StartsWith(t + tag, t)
  {
    assert (t + tag)[..|t|] == t;
  }

  /** What `validate_datetime_preference(text)` returns when the clock reads `now`. */
  function PreferenceVerdict(now: Moment, text: string): (r: Checked<string>)
    ensures !r.ok ==> r.value == ""
    ensures r.ok ==> StartsWith(r.value, Trim(text))
  {
    var t := Trim(text);
    Tagged(t, LaterTag);
    if t == [] then Checked(false, "")
    else match FirstParse(PreferenceFormats, t)
      case Some(m) => JudgeParsed(now, t, m)
      case None => if |t| >= 5 then Checked(true, t + LaterTag) else Checked(false, "")
  }

  /**
    * A moment that parses is judged only by the clock, the weekday and the
    * hour: one not after `now` is refused even where the free-text rule
    * would have taken it.
    */
  lemma PreferenceParsed(now: Moment, text: string)
    requires Trim(text) != [] && FirstParse(PreferenceFormats, Trim(text)).Some?
    ensures var t, m := Trim(text), FirstParse(PreferenceFormats, Trim(text)).value;
            && (PreferenceVerdict(now, text).ok <==> MomentBefore(now, m))
            && (MomentBefore(now, m) && IsWeekend(m.date) ==> PreferenceVerdict(now, text).value == t + WeekendTag)
            && (MomentBefore(now, m) && !IsWeekend(m.date) && OutsideBusinessHours(m)
                ==> PreferenceVerdict(now, text).value == t + OffHoursTag)
            && (MomentBefore(now, m) && !IsWeekend(m.date) && !OutsideBusinessHours(m)
                ==> PreferenceVerdict(now, text).value == t)
  {
    var m := FirstParse(PreferenceFormats, Trim(text)).value;
    MomentOrderTotal(now, m);
  }

  /** Text no strict format parses is taken as free text from 5 characters on. */
  lemma PreferenceFreeText(now: Moment, text: string)
    requires FirstParse(PreferenceFormats, Trim(text)).None?
    ensures PreferenceVerdict(now, text)
         == if |Trim(text)| >= 5 then Checked(true, Trim(text) + LaterTag) else Checked(false, "")
  {
  }

  /** `<=` on datetimes is the negation of `>`. */
  lemma MomentOrderTotal(a: Moment, b: Moment)
    ensures MomentAtMost(b, a) <==> !MomentBefore(a, b)
  {
  }

  /** The loop over the formats with its early return, as the source runs it. */
  method ValidateDatetimePreference(text: string, now: Moment) returns (ok: bool, value: string)
    ensures Checked(ok, value) == PreferenceVerdict(now, text)
  {
    var t := Trim(text);
    if t == [] {
      return false, "";
    }
    var formats := PreferenceFormats;
    var i := 0;
    while i < |formats|
      invariant 0 <= i <= |formats|
      invariant FirstParse(formats, t) == FirstParse(formats[i..], t)
    {
      var attempt := Strptime(formats[i], t);
      if attempt.Some? {
        FirstParseHead(formats[i..], t);
        var verdict := JudgeParsed(now, t, attempt.value);
        return verdict.ok, verdict.value;
      }
      FirstParseSkip(formats[i..], t);
      assert formats[i..][1..] == formats[i + 1..];
      i := i + 1;
    }
    if |t| >= 5 {
      return true, t + LaterTag;
    }
    return false, "";
  }

  // =====================================================================
  // validate_service_selection

  /** The first service whose lower-cased name equals the lower-cased input. */
  function ExactIndex(t: string, services: seq<string>): (r: Option<nat>)
    ensures r.Some? ==> r.value < |services| && Lower(services[r.value]) == Lower(t)
    ensures r.Some? ==> forall j :: 0 <= j < r.value ==> Lower(services[j]) != Lower(t)
    ensures r.None? <==> forall j :: 0 <= j < |services| ==> Lower(services[j]) != Lower(t)
  {
    if services == [] then None
    else if Lower(services[0]) == Lower(t) then Some(0)
    else match ExactIndex(t, services[1..])
      case None => None
      case Some(k) => Some(k + 1)
  }

  /** `[s for s in services if t.lower() in s.lower()]`. */
  function Containing(t: string, services: seq<string>): (r: seq<string>)
    ensures |r| <= |services|
    ensures forall x :: x in r ==> x in services && Contains(Lower(x), Lower(t))
    ensures forall x :: x in services && Contains(Lower(x), Lower(t)) ==> x in r
  {
    if services == [] then []
    else
      (if Contains(Lower(services[0]), Lower(t)) then [services[0]] else [])
      + Containing(t, services[1..])
  }

  lemma ContainingAppend(t: string, a: seq<string>, x: string)
    ensures Containing(t, a + [x]) == Containing(t, a) + (if Contains(Lower(x), Lower(t)) then [x] else [])
  {
    if a == [] {
      assert a + [x] == [x];
    } else {
      assert (a + [x])[1..] == a[1..] + [x];
      ContainingAppend(t, a[1..], x);
    }
  }

  /** What `validate_service_selection(input, services)` returns. */
  function ServiceVerdict(input: string, services: seq<string>): (r: Checked<string>)
    ensures r.ok ==> r.value in services
    ensures !r.ok ==> r.value == ""
  {
    if input == [] then Checked(false, "")
    else
      var t := Trim(input);
      match ExactIndex(t, services)
      case Some(i) => Checked(true, services[i])
      case None =>
        var m := Containing(t, services);
        if |m| == 1 then Checked(true, m[0]) else Checked(false, "")
  }

  /** An exact (case-insensitive) match wins, and the first one in list order is taken. */
  lemma ServiceExactWins(input: string, services: seq<string>, i: nat)
    requires input != [] && i < |services| && Lower(services[i]) == Lower(Trim(input))
    requires forall j :: 0 <= j < i ==> Lower(services[j]) != Lower(Trim(input))
    ensures ServiceVerdict(input, services) == Checked(true, services[i])
  {
    var e := ExactIndex(Trim(input), services);
    assert e.Some?;
    assert e.value == i;
  }

  /** Without an exact match, the selection succeeds exactly when one entry contains the input. */
  lemma ServiceSubstringRule(input: string, services: seq<string>)
    requires input != [] && forall j :: 0 <= j < |services| ==> Lower(services[j]) != Lower(Trim(input))
    ensures ServiceVerdict(input, services).ok <==> |Containing(Trim(input), services)| == 1
    ensures ServiceVerdict(input, services).ok
        ==> Contains(Lower(ServiceVerdict(input, services).value), Lower(Trim(input)))
  {
    var m := Containing(Trim(input), services);
    if |m| == 1 {
      assert m[0] in m;
    }
  }

  /** The exact-match loop with its early return, then the list comprehension. */
  method ValidateServiceSelection(input: string, services: seq<string>) returns (ok: bool, value: string)
    ensures Checked(ok, value) == ServiceVerdict(input, services)
  {
    if input == [] {
      return false, "";
    }
    var t := Trim(input);
    var exact := FindExact(t, services);
    if exact.Some? {
      return true, services[exact.value];
    }
    var matches := CollectContaining(t, services);
    if |matches| == 1 {
      return true, matches[0];
    }
    return false, "";
  }

  method FindExact(t: string, services: seq<string>) returns (found: Option<nat>)
    ensures found == ExactIndex(t, services)
  {
    var key := Lower(t);
    var i := 0;
    while i < |services|
      invariant 0 <= i <= |services|
      invariant forall j :: 0 <= j < i ==> Lower(services[j]) != key
    {
      if Lower(services[i]) == key {
        ExactIndexFirst(t, services, i);
        return Some(i);
      }
      i := i + 1;
    }
    return None;
  }

  lemma {:induction false} ExactIndexFirst(t: string, services: seq<string>, i: nat)
    requires i < |services| && Lower(services[i]) == Lower(t)
    requires forall j :: 0 <= j < i ==> Lower(services[j]) != Lower(t)
    ensures ExactIndex(t, services) == Some(i)
  {
    var e := ExactIndex(t, services);
    assert e.Some?;
    if e.value < i {
    } else if e.value > i {
    }
  }

  method CollectContaining(t: string, services: seq<string>) returns (matches: seq<string>)
    ensures matches == Containing(t, services)
  {
    var key := Lower(t);
    matches := [];
    var i := 0;
    while i < |services|
      invariant 0 <= i <= |services|
      invariant matches == Containing(t, services[..i])
    {
      ContainingAppend(t, services[..i], services[i]);
      if Contains(Lower(services[i]), key) {
        matches := matches + [services[i]];
      }
      assert services[..i + 1] == services[..i] + [services[i]];
      i := i + 1;
    }
    assert services[..i] == services;
  }

  // =====================================================================
  // sanitize_text_for_html

  /** `s.replace(c, rep)` for a one-character pattern. */
  function ReplaceChar(s: string, c: char, rep: string): string {
    if s == [] then [] else (if s[0] == c then rep else [s[0]]) + ReplaceChar(s[1..], c, rep)
  }

  lemma ReplaceOne(x: char, c: char, rep: string)
    ensures ReplaceChar([x], c, rep) == if x == c then rep else [x]
  {
    assert [x][1..] == [];
    var head := if x == c then rep else [x];
    assert head + [] == head;
  }

  lemma ReplaceCharAppend(a: string, b: string, c: char, rep: string)
    ensures ReplaceChar(a + b, c, rep) == ReplaceChar(a, c, rep) + ReplaceChar(b, c, rep)
  {
    if a == [] {
      assert a + b == b;
    } else {
      assert (a + b)[1..] == a[1..] + b;
      ReplaceCharAppend(a[1..], b, c, rep);
    }
  }

  lemma ReplaceCharAbsent(s: string, c: char, rep: string)
    requires !ContainsChar(s, c)
    ensures ReplaceChar(s, c, rep) == s
  {
    if s != [] {
      assert forall j :: 0 <= j < |s[1..]| ==> s[1..][j] == s[j + 1];
      ReplaceCharAbsent(s[1..], c, rep);
    }
  }

  /** The entity each special character becomes. */
  function EscapeChar(c: char): string {
    if c == '&' then "&amp;"
    else if c == '<' then "&lt;"
    else if c == '>' then "&gt;"
    else if c == '"' then "&quot;"
    else if c == '\'' then "&#x27;"
    else [c]
  }

  /** Every character replaced by its entity, in one pass. */
  function EscapeHtml(s: string): string {
    if s == [] then [] else EscapeChar(s[0]) + EscapeHtml(s[1..])
  }

  lemma EscapeHtmlAppend(a: string, b: string)
    ensures EscapeHtml(a + b) == EscapeHtml(a) + EscapeHtml(b)
  {
    if a == [] {
      assert a + b == b;
    } else {
      assert (a + b)[1..] == a[1..] + b;
      EscapeHtmlAppend(a[1..], b);
    }
  }

  /** The five `replace` calls in the source's order. */
  function ReplaceSpecials(s: string): string {
    var s1 := ReplaceChar(s, '&', "&amp;");
    var s2 := ReplaceChar(s1, '<', "&lt;");
    var s3 := ReplaceChar(s2, '>', "&gt;");
    var s4 := ReplaceChar(s3, '"', "&quot;");
    ReplaceChar(s4, '\'', "&#x27;")
  }

  lemma ReplaceSpecialsAppend(a: string, b: string)
    ensures ReplaceSpecials(a + b) == ReplaceSpecials(a) + ReplaceSpecials(b)
  {
    ReplaceCharAppend(a, b, '&', "&amp;");
    var a1, b1 := ReplaceChar(a, '&', "&amp;"), ReplaceChar(b, '&', "&amp;");
    ReplaceCharAppend(a1, b1, '<', "&lt;");
    var a2, b2 := ReplaceChar(a1, '<', "&lt;"), ReplaceChar(b1, '<', "&lt;");
    ReplaceCharAppend(a2, b2, '>', "&gt;");
    var a3, b3 := ReplaceChar(a2, '>', "&gt;"), ReplaceChar(b2, '>', "&gt;");
    ReplaceCharAppend(a3, b3, '"', "&quot;");
    var a4, b4 := ReplaceChar(a3, '"', "&quot;"), ReplaceChar(b3, '"', "&quot;");
    ReplaceCharAppend(a4, b4, '\'', "&#x27;");
  }

  /** Each entity a later `replace` inserts is free of the characters still to be replaced. */
  lemma ReplaceSpecialsChar(c: char)
    ensures ReplaceSpecials([c]) == EscapeChar(c)
  {
    if c == '&' {
      EscapeAmpersand();
    } else if c == '<' {
      EscapeBelow(c, "&lt;");
    } else if c == '>' {
      EscapeBelow(c, "&gt;");
    } else if c == '"' {
      EscapeBelow(c, "&quot;");
    } else if c == '\'' {
      EscapeBelow(c, "&#x27;");
    } else {
      EscapeBelow(c, [c]);
    }
  }

  lemma EscapeAmpersand()
    ensures ReplaceSpecials(['&']) == "&amp;"
  {
    var e := "&amp;";
    ReplaceOne('&', '&', e);
    assert ReplaceChar(['&'], '&', e) == e;
    assert forall i :: 0 <= i < |e| ==> !IsHtmlSpecial(e[i]) by {
      assert e == ['&', 'a', 'm', 'p', ';'];
    }
    LaterReplacementsKeep(e);
  }

  /** A character other than `&` passes the first `replace` unchanged. */
  lemma EscapeBelow(c: char, e: string)
    requires c != '&' && e == EscapeChar(c)
    ensures ReplaceSpecials([c]) == e
  {
    ReplaceOne(c, '&', "&amp;");
    ReplaceOne(c, '<', "&lt;");
    if c == '<' {
      LaterReplacementsKeep("&lt;");
    } else {
      ReplaceOne(c, '>', "&gt;");
      if c == '>' {
        LaterReplacementsKeep("&gt;");
      } else {
        ReplaceOne(c, '"', "&quot;");
        if c == '"' {
          LaterReplacementsKeep("&quot;");
        } else {
          ReplaceOne(c, '\'', "&#x27;");
        }
      }
    }
  }

  /** An entity holds none of `<`, `>`, `"` and `'`, so the later replacements keep it. */
  lemma LaterReplacementsKeep(e: string)
    requires forall i :: 0 <= i < |e| ==> !IsHtmlSpecial(e[i])
    ensures ReplaceChar(e, '<', "&lt;") == e
    ensures ReplaceChar(e, '>', "&gt;") == e
    ensures ReplaceChar(e, '"', "&quot;") == e
    ensures ReplaceChar(e, '\'', "&#x27;") == e
  {
    ReplaceCharAbsent(e, '<', "&lt;");
    ReplaceCharAbsent(e, '>', "&gt;");
    ReplaceCharAbsent(e, '"', "&quot;");
    ReplaceCharAbsent(e, '\'', "&#x27;");
  }

  /**
    * The chained replacements escape each character exactly once: because
    * `&` is replaced first, the `&` of a later entity is never escaped again.
    */
  lemma {:induction false} ReplaceSpecialsIsEscape(s: string)
    ensures ReplaceSpecials(s) == EscapeHtml(s)
  {
    if s != [] {
      assert s == [s[0]] + s[1..];
      ReplaceSpecialsAppend([s[0]], s[1..]);
      ReplaceSpecialsChar(s[0]);
      ReplaceSpecialsIsEscape(s[1..]);
    }
  }

  predicate IsHtmlSpecial(c: char) {
    c == '<' || c == '>' || c == '"' || c == '\''
  }

  /** No `<`, `>`, `"` or `'` survives escaping. */
  lemma {:induction false} EscapeHtmlHasNoSpecials(s: string)
    ensures forall i :: 0 <= i < |EscapeHtml(s)| ==> !IsHtmlSpecial(EscapeHtml(s)[i])
  {
    if s != [] {
      EscapeHtmlHasNoSpecials(s[1..]);
      var e := EscapeChar(s[0]);
      assert forall i :: 0 <= i < |e| ==> !IsHtmlSpecial(e[i]);
      assert EscapeHtml(s) == e + EscapeHtml(s[1..]);
    }
  }

  /** Decoding the five entities back into their characters. */
  function Unescape(s: string): string {
    if s == [] then []
    else if StartsWith(s, "&amp;") then "&" + Unescape(s[5..])
    else if StartsWith(s, "&lt;") then "<" + Unescape(s[4..])
    else if StartsWith(s, "&gt;") then ">" + Unescape(s[4..])
    else if StartsWith(s, "&quot;") then "\"" + Unescape(s[6..])
    else if StartsWith(s, "&#x27;") then "'" + Unescape(s[6..])
    else [s[0]] + Unescape(s[1..])
  }

  lemma UnescapeChar(c: char, rest: string)
    ensures Unescape(EscapeChar(c) + rest) == [c] + Unescape(rest)
  {
    if c == '&' {
      UnescapeEntity("&amp;", rest);
    } else if c == '<' {
      UnescapeEntity("&lt;", rest);
    } else if c == '>' {
      UnescapeEntity("&gt;", rest);
    } else if c == '"' {
      UnescapeEntity("&quot;", rest);
    } else if c == '\'' {
      UnescapeEntity("&#x27;", rest);
    } else {
      var s := [c] + rest;
      assert s[0] == c && s[1..] == rest;
    }
  }

  /** An entity at the head of the text decodes to its character; the earlier entities differ from it at index 1. */
  lemma UnescapeEntity(e: string, rest: string)
    requires e in ["&amp;", "&lt;", "&gt;", "&quot;", "&#x27;"]
    ensures Unescape(e + rest) == [EntityChar(e)] + Unescape(rest)
  {
    var s := e + rest;
    assert s[..|e|] == e;
    assert s[|e|..] == rest;
    assert s[1] == e[1];
  }

  function EntityChar(e: string): char {
    if e == "&amp;" then '&'
    else if e == "&lt;" then '<'
    else if e == "&gt;" then '>'
    else if e == "&quot;" then '"'
    else '\''
  }

  /** Escaping loses nothing: the entities decode back to the original text. */
  lemma {:induction false} UnescapeEscape(s: string)
    ensures Unescape(EscapeHtml(s)) == s
  {
    if s != [] {
      UnescapeEscape(s[1..]);
      UnescapeChar(s[0], EscapeHtml(s[1..]));
    }
  }

  /** `sanitize_text_for_html`: the text rebound through the five replacements. */
  method SanitizeTextForHtml(text: string) returns (r: string)
    ensures r == EscapeHtml(text)
    ensures Unescape(r) == text
    ensures forall i :: 0 <= i < |r| ==> !IsHtmlSpecial(r[i])
  {
    r := ReplaceChar(text, '&', "&amp;");
    r := ReplaceChar(r, '<', "&lt;");
    r := ReplaceChar(r, '>', "&gt;");
    r := ReplaceChar(r, '"', "&quot;");
    r := ReplaceChar(r, '\'', "&#x27;");
    assert r == ReplaceSpecials(text);
    ReplaceSpecialsIsEscape(text);
    UnescapeEscape(text);
    EscapeHtmlHasNoSpecials(text);
  }
}
