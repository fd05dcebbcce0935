/** Phone numbers and WhatsApp JIDs: CreateJID and the numbers that are asked about on WhatsApp, on ASCII text. */
module PhoneJid {
  import opened Wrappers
  import Text

  const USER_SUFFIX: string := "@s.whatsapp.net"
  const GROUP_SUFFIX: string := "@g.us"

  datatype JidError = EmptyNumber | InvalidNumber

  /** The input already is a JID of some kind. */
  predicate HasMarker(s: string) {
    || Text.Contains(s, GROUP_SUFFIX)
    || Text.Contains(s, USER_SUFFIX)
    || Text.Contains(s, "@lid")
    || Text.Contains(s, "@broadcast")
    || Text.Contains(s, "@newsletter")
  }

  predicate IsDigit(c: char) {
    '0' <= c <= '9'
  }

  predicate IsPunctuation(c: char) {
    c == ' ' || c == '+' || c == '(' || c == ')'
  }

  function Keep(s: string, p: char -> bool): string {
    if s == "" then "" else (if p(s[0]) then [s[0]] else "") + Keep(s[1..], p)
  }

  function Digits(s: string): string {
    Keep(s, c => IsDigit(c))
  }

  function DigitsAndHyphens(s: string): string {
    Keep(s, c => IsDigit(c) || c == '-')
  }

  function Unpunctuated(s: string): string {
    Keep(s, c => !IsPunctuation(c))
  }

  /** The number without blanks, pluses and parentheses, up to its first colon. */
  function Cleaned(number: string): string {
    Text.Split(Unpunctuated(number), ':')[0]
  }

  /** formatMXOrARNumber. */
  function FormatMxOrAr(n: string): string {
    if |n| < 2 then n
    else if n[..2] == "52" && |n| == 13 then
      if n[2] == '1' then n[..2] + n[3..] else n
    else if n[..2] == "54" && |n| == 13 then n[..2] + n[3..]
    else n
  }

  function DigitValue(c: char): int {
    c as int - '0' as int
  }

  /** formatBRNumber. */
  function FormatBr(n: string): string {
    if |n| != 13 || n[..2] != "55" then n
    else
      var ddd := 10 * DigitValue(n[2]) + DigitValue(n[3]);
      if ddd < 11 || ddd > 99 then n
      else if DigitValue(n[4]) >= 7 && ddd >= 31 then n[..4] + n[5..]
      else n
  }

  function Formatted(digits: string): string {
    FormatBr(FormatMxOrAr(digits))
  }

  /** CreateJID. */
  function CreateJID(number: string): Result<string, JidError> {
    if number == "" then Err(EmptyNumber)
    else if HasMarker(number) then Ok(number)
    else
      var cleaned := Cleaned(number);
      if '-' in cleaned && |cleaned| >= 24 then Ok(DigitsAndHyphens(cleaned) + GROUP_SUFFIX)
      else if |cleaned| >= 18 then Ok(DigitsAndHyphens(cleaned) + GROUP_SUFFIX)
      else if Digits(cleaned) == "" then Err(InvalidNumber)
      else Ok("+" + Formatted(Digits(cleaned)) + USER_SUFFIX)
  }

  function BeforeAt(s: string): string {
    Text.Split(s, '@')[0]
  }

  /** What is asked about one number when formatting is on. */
  function Prepared(number: string): string {
    var raw := if Text.Contains(number, USER_SUFFIX) then BeforeAt(number) else number;
    match CreateJID(raw)
    case Err(_) => number
    case Ok(jid) => if Text.Contains(jid, USER_SUFFIX) then BeforeAt(jid) else jid
  }

  /** PrepareNumbersForWhatsAppCheck; an absent flag means true. */
  method PrepareNumbersForWhatsAppCheck(numbers: seq<string>, formatJid: Option<bool>) returns (prepared: seq<string>)
    ensures formatJid == Some(false) ==> prepared == numbers
    ensures formatJid != Some(false) ==> |prepared| == |numbers|
    ensures formatJid != Some(false) ==> forall i :: 0 <= i < |numbers| ==> prepared[i] == Prepared(numbers[i])
  {
    var shouldFormat := true;
    if formatJid.Some? {
      shouldFormat := formatJid.value;
    }
    if !shouldFormat {
      return numbers;
    }
    prepared := PrepareAll(numbers);
  }

  /** The loop of PrepareNumbersForWhatsAppCheck. */
  method PrepareAll(numbers: seq<string>) returns (prepared: seq<string>)
    ensures |prepared| == |numbers|
    ensures forall i :: 0 <= i < |numbers| ==> prepared[i] == Prepared(numbers[i])
  {
    prepared := [];
    for i := 0 to |numbers|
      invariant |prepared| == i
      invariant forall j :: 0 <= j < i ==> prepared[j] == Prepared(numbers[j])
    {
      var phone := PrepareOne(numbers[i]);
      prepared := prepared + [phone];
    }
  }

  method PrepareOne(number: string) returns (phone: string)
    ensures phone == Prepared(number)
  {
    var raw := number;
    if Text.Contains(number, USER_SUFFIX) {
      raw := BeforeAt(number);
    }
    match CreateJID(raw) {
      case Err(_) =>
        phone := number;
      case Ok(jid) =>
        phone := if Text.Contains(jid, USER_SUFFIX) then BeforeAt(jid) else jid;
    }
  }

  // ------------------------------------------------------------- properties

  predicate AllDigits(s: string) {
    forall c <- s :: IsDigit(c)
  }

  lemma {:induction false} KeepFact(s: string, p: char -> bool)
    ensures forall c <- Keep(s, p) :: p(c) && c in s
    ensures (forall c <- s :: p(c)) ==> Keep(s, p) == s
    ensures |Keep(s, p)| <= |s|
    decreases |s|
  {
    if s != "" {
      KeepFact(s[1..], p);
      assert s == [s[0]] + s[1..];
      assert forall c <- s[1..] :: c in s;
    }
  }

  lemma NoAtNoPart(s: string, part: string)
    requires '@' !in s && part != "" && part[0] == '@'
    ensures !Text.Contains(s, part)
  {
    forall i | 0 <= i <= |s| ensures !(part <= s[i..]) {
      if i < |s| {
        assert s[i..][0] == s[i] && s[i] in s;
      }
    }
  }

  lemma NoAtNoMarker(s: string)
    requires '@' !in s
    ensures !HasMarker(s)
  {
    NoAtNoPart(s, GROUP_SUFFIX);
    NoAtNoPart(s, USER_SUFFIX);
    NoAtNoPart(s, "@lid");
    NoAtNoPart(s, "@broadcast");
    NoAtNoPart(s, "@newsletter");
  }

  /** Formatting drops at most one digit, and has nothing left to do on its own result. */
  lemma FormattedIsStable(digits: string)
    requires AllDigits(digits) && digits != ""
    ensures AllDigits(Formatted(digits)) && Formatted(digits) != ""
    ensures |digits| - 1 <= |Formatted(digits)| <= |digits|
    ensures Formatted(Formatted(digits)) == Formatted(digits)
  {
  }

  /** A Brazilian number of 13 digits with an area code from 31 on loses its first local digit, if that is 7 or more. */
  lemma BrazilianNumbers(area: string, d: char, rest: string)
    requires |area| == 2 && |rest| == 8 && AllDigits(area + [d] + rest)
    ensures var mobile := d >= '7' && (area[0] > '3' || (area[0] == '3' && area[1] >= '1'));
      Formatted("55" + area + [d] + rest) == if mobile then "55" + area + rest else "55" + area + [d] + rest
  {
    var n := "55" + area + [d] + rest;
    assert n[..2] == "55" && n[2] == area[0] && n[3] == area[1] && n[4] == d && n[..4] == "55" + area && n[5..] == rest;
    var digits := area + [d] + rest;
    assert area[0] in digits && area[1] in digits && d in digits;
  }

  /** A Mexican number of 13 digits loses a 1 after its country code. */
  lemma MexicanNumbers(d: char, rest: string)
    requires |rest| == 10
    ensures Formatted("52" + [d] + rest) == if d == '1' then "52" + rest else "52" + [d] + rest
  {
    var n := "52" + [d] + rest;
    assert n[..2] == "52" && n[2] == d && n[3..] == rest;
  }

  /** An Argentine one loses the digit there, whatever it is. */
  lemma ArgentineNumbers(d: char, rest: string)
    requires |rest| == 10
    ensures Formatted("54" + [d] + rest) == "54" + rest
  {
    var n := "54" + [d] + rest;
    assert n[..2] == "54" && n[3..] == rest;
  }

  /** No other number changes. */
  lemma OtherNumbers(digits: string)
    requires |digits| == 13 ==> digits[..2] !in {"52", "54", "55"}
    ensures Formatted(digits) == digits
  {
  }

  /** Whatever already holds one of the five marks of a JID is taken as it is. */
  lemma MarkedIsKept(before: string, mark: string, after: string)
    requires mark in {"@g.us", "@s.whatsapp.net", "@lid", "@broadcast", "@newsletter"}
    ensures CreateJID(before + mark + after) == Ok(before + mark + after)
  {
    Text.ContainsMeans(before + mark + after, mark);
  }

  lemma {:induction false} UnpunctuatedAppend(a: string, b: string)
    ensures Unpunctuated(a + b) == Unpunctuated(a) + Unpunctuated(b)
    decreases |a|
  {
    if a == "" {
      assert a + b == b;
    } else {
      assert (a + b)[0] == a[0] && (a + b)[1..] == a[1..] + b;
      UnpunctuatedAppend(a[1..], b);
    }
  }

  lemma UnpunctuatedChar(c: char)
    ensures Unpunctuated([c]) == if IsPunctuation(c) then "" else [c]
  {
    assert [c][1..] == "" && Unpunctuated("") == "";
  }

  /** Blanks, pluses and parentheses make no difference, wherever they stand. */
  lemma PunctuationIsIgnored(a: string, c: char, b: string)
    requires c in " +()" && '@' !in a && '@' !in b && a + b != ""
    ensures CreateJID(a + [c] + b) == CreateJID(a + b)
  {
    NoAtNoMarker(a + b);
    NoAtNoMarker(a + [c] + b);
    UnpunctuatedAppend(a + [c], b);
    UnpunctuatedAppend(a, [c]);
    UnpunctuatedAppend(a, b);
    UnpunctuatedChar(c);
    assert Unpunctuated(a) + "" == Unpunctuated(a);
  }

  /** Nor does anything from a colon on. */
  lemma ColonCuts(a: string, b: string)
    requires '@' !in a && '@' !in b && a != ""
    ensures CreateJID(a + ":" + b) == CreateJID(a)
  {
    NoAtNoMarker(a);
    NoAtNoMarker(a + ":" + b);
    UnpunctuatedAppend(a + ":", b);
    UnpunctuatedAppend(a, ":");
    UnpunctuatedChar(':');
    FirstPiece(Unpunctuated(a), Unpunctuated(b));
  }

  lemma {:induction false} FirstPiece(a: string, b: string)
    ensures Text.Split(a + ":" + b, ':')[0] == Text.Split(a, ':')[0]
    decreases |a|
  {
    if a == "" {
      assert (a + ":" + b)[0] == ':';
    } else {
      assert (a + ":" + b)[1..] == a[1..] + ":" + b;
      FirstPiece(a[1..], b);
    }
  }

  predicate Plain(s: string) {
    forall c <- s :: IsDigit(c) || c == '-'
  }

  lemma PlainIsClean(s: string)
    requires s != "" && Plain(s)
    ensures !HasMarker(s) && Cleaned(s) == s && DigitsAndHyphens(s) == s && (Digits(s) == "" <==> !SomeDigit(s))
  {
    NoAtNoMarker(s);
    KeepFact(s, c => !IsPunctuation(c));
    KeepFact(s, c => IsDigit(c) || c == '-');
    KeepFact(s, c => IsDigit(c));
    Text.SplitPiece(s, "", ':');
    if Digits(s) != "" {
      assert Digits(s)[0] in Digits(s);
    }
    if SomeDigit(s) {
      var c :| c in s && IsDigit(c);
      DigitIsKept(s, c);
    }
  }

  predicate SomeDigit(s: string) {
    exists c <- s :: IsDigit(c)
  }

  /** What is left is a group if it is long, and otherwise a phone number, of which only the digits count. */
  lemma LongIsGroup(s: string)
    requires s != "" && Plain(s)
    ensures |s| >= 18 ==> CreateJID(s) == Ok(s + "@g.us")
    ensures |s| < 18 && SomeDigit(s) ==> CreateJID(s) == Ok("+" + Formatted(Digits(s)) + "@s.whatsapp.net")
    ensures |s| < 18 && !SomeDigit(s) ==> CreateJID(s) == Err(InvalidNumber)
  {
    PlainIsClean(s);
  }

  lemma {:induction false} DigitIsKept(s: string, c: char)
    requires c in s && IsDigit(c)
    ensures c in Digits(s)
    decreases |s|
  {
    if s[0] != c {
      assert s == [s[0]] + s[1..];
      DigitIsKept(s[1..], c);
    }
  }

  lemma ContainsSuffix(s: string, suffix: string)
    ensures Text.Contains(s + suffix, suffix)
  {
    assert (s + suffix)[|s|..] == suffix;
  }

  lemma BeforeAtCuts(user: string, rest: string)
    requires '@' !in user
    ensures BeforeAt(user + ['@'] + rest) == user
  {
    Text.SplitPiece(user, rest, '@');
  }

  /** A text with one at sign contains a marker only where the sign is. */
  lemma OneAtSign(user: string, rest: string, part: string)
    requires '@' !in user && '@' !in rest && part != "" && part[0] == '@'
    ensures Text.Contains(user + ['@'] + rest, part) ==> part <= ['@'] + rest
  {
    var s := user + ['@'] + rest;
    if Text.Contains(s, part) {
      var i :| 0 <= i <= |s| && part <= s[i..];
      assert s[i] == '@';
      assert i == |user|;
      assert s[i..] == ['@'] + rest;
    }
  }

  lemma GroupIsNotUser(group: string)
    requires '@' !in group
    ensures !Text.Contains(group + GROUP_SUFFIX, USER_SUFFIX)
  {
    assert group + GROUP_SUFFIX == group + ['@'] + "g.us";
    OneAtSign(group, "g.us", USER_SUFFIX);
  }

  /** CreateJID on a plus and up to 17 digits. */
  lemma CreateFromDigits(digits: string)
    requires AllDigits(digits) && 1 <= |digits| <= 17
    ensures CreateJID("+" + digits) == Ok("+" + Formatted(digits) + USER_SUFFIX)
  {
    var number := "+" + digits;
    NoAtNoMarker(number);
    assert number[1..] == digits;
    KeepFact(digits, c => !IsPunctuation(c));
    assert Unpunctuated(number) == digits;
    Text.SplitPiece(digits, "", ':');
    assert Cleaned(number) == digits;
    KeepFact(digits, c => IsDigit(c));
    assert '-' !in digits;
  }

  lemma UserJidShape(user: string)
    requires '@' !in user
    ensures Text.Contains(user + USER_SUFFIX, USER_SUFFIX) && BeforeAt(user + USER_SUFFIX) == user
  {
    ContainsSuffix(user, USER_SUFFIX);
    assert user + USER_SUFFIX == user + ['@'] + "s.whatsapp.net";
    BeforeAtCuts(user, "s.whatsapp.net");
  }

  /** The digits that the phone branch of CreateJID formats. */
  lemma CleanedDigits(number: string)
    ensures AllDigits(Digits(Cleaned(number))) && |Digits(Cleaned(number))| <= |Cleaned(number)|
    ensures '@' !in DigitsAndHyphens(Cleaned(number))
  {
    KeepFact(Cleaned(number), c => IsDigit(c));
    KeepFact(Cleaned(number), c => IsDigit(c) || c == '-');
  }

  /**
   A number without a JID marker that becomes a phone JID becomes a plus and 1 to 17 digits, of which formatting
   dropped at most one; and feeding the user part back gives the same JID.
   */
  lemma PhoneJidIsStable(number: string)
    requires !HasMarker(number) && CreateJID(number).Ok? && Text.Contains(CreateJID(number).value, USER_SUFFIX)
    ensures var digits := Formatted(Digits(Cleaned(number)));
      && AllDigits(digits) && 1 <= |digits| <= 17
      && |Digits(Cleaned(number))| - 1 <= |digits| <= |Digits(Cleaned(number))|
      && CreateJID(number) == Ok("+" + digits + USER_SUFFIX)
      && BeforeAt(CreateJID(number).value) == "+" + digits
      && CreateJID("+" + digits) == CreateJID(number)
  {
    var cleaned := Cleaned(number);
    CleanedDigits(number);
    if |cleaned| >= 18 {
      GroupIsNotUser(DigitsAndHyphens(cleaned));
    }
    var digits := Formatted(Digits(cleaned));
    FormattedIsStable(Digits(cleaned));
    CreateFromDigits(digits);
    UserJidShape("+" + digits);
  }

  /** The raw number, its user part and its JID all ask the same query. */
  lemma SameQuery(number: string)
    requires !HasMarker(number) && CreateJID(number).Ok? && Text.Contains(CreateJID(number).value, USER_SUFFIX)
    ensures var jid := CreateJID(number).value;
      Prepared(number) == Prepared(BeforeAt(jid)) == Prepared(jid) == BeforeAt(jid)
  {
    PhoneJidIsStable(number);
    var user := "+" + Formatted(Digits(Cleaned(number)));
    UserJidShape(user);
    NoAtNoMarker(user);
  }

  /** Preparing a prepared number changes nothing, whatever the input was. */
  lemma PreparingIsIdempotent(number: string)
    ensures Prepared(Prepared(number)) == Prepared(number)
  {
    var raw := if Text.Contains(number, USER_SUFFIX) then BeforeAt(number) else number;
    if CreateJID(raw).Ok? {
      var jid := CreateJID(raw).value;
      if HasMarker(raw) {
        BeforeAtHasNone(number);
        if Text.Contains(number, USER_SUFFIX) {
          NoAtNoMarker(raw);
        }
      } else if Text.Contains(jid, USER_SUFFIX) {
        PhoneJidIsStable(raw);
        SameQuery(raw);
      } else {
        PreparedGroup(raw);
      }
    }
  }

  lemma {:induction false} FirstPieceIsPrefix(s: string, sep: char)
    ensures Text.Split(s, sep)[0] <= s
    decreases |s|
  {
    if s != "" && s[0] != sep {
      FirstPieceIsPrefix(s[1..], sep);
      assert s == [s[0]] + s[1..];
    }
  }

  lemma DigitsComeFrom(raw: string)
    ensures Digits(Cleaned(raw)) != "" ==> SomeDigit(raw)
    ensures |Cleaned(raw)| <= |raw|
  {
    KeepFact(raw, c => !IsPunctuation(c));
    FirstPieceIsPrefix(Unpunctuated(raw), ':');
    KeepFact(Cleaned(raw), c => IsDigit(c));
    if Digits(Cleaned(raw)) != "" {
      var c := Digits(Cleaned(raw))[0];
      assert c in Digits(Cleaned(raw)) && c in Cleaned(raw) && c in Unpunctuated(raw) && c in raw;
    }
  }

  lemma NothingToFormat(raw: string)
    requires '@' !in raw && !SomeDigit(raw) && |raw| < 18
    ensures CreateJID(raw).Err?
  {
    NoAtNoMarker(raw);
    DigitsComeFrom(raw);
  }

  /** What cannot be formatted is asked about as it came, and so is a JID that is not a user's. */
  lemma OthersAreAskedAsTheyAre(raw: string, jid: string)
    requires '@' !in raw && !SomeDigit(raw) && |raw| < 18
    requires HasMarker(jid) && !Text.Contains(jid, "@s.whatsapp.net")
    ensures Prepared(raw) == raw && Prepared(raw + "@s.whatsapp.net") == raw + "@s.whatsapp.net"
    ensures Prepared(jid) == jid
  {
    NothingToFormat(raw);
    NoAtNoMarker(raw);
    UserJidShape(raw);
  }

  lemma BeforeAtHasNone(s: string)
    ensures '@' !in BeforeAt(s)
  {
    Text.PiecesHaveNoSeparator(s, '@');
    assert BeforeAt(s) in Text.Split(s, '@');
  }

  lemma PreparedGroup(raw: string)
    requires !HasMarker(raw) && CreateJID(raw).Ok? && !Text.Contains(CreateJID(raw).value, USER_SUFFIX)
    ensures Prepared(CreateJID(raw).value) == CreateJID(raw).value
  {
    CleanedDigits(raw);
    if |Cleaned(raw)| < 18 {
      var user := "+" + Formatted(Digits(Cleaned(raw)));
      ContainsSuffix(user, USER_SUFFIX);
    }
    ContainsSuffix(DigitsAndHyphens(Cleaned(raw)), GROUP_SUFFIX);
  }
}
