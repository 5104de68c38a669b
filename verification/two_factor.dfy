/** The PIN screen of `src/TwoFactorPage.jsx`: the masked address it shows
    and the state machine of PIN entry, verification, lockout and resend.
    The random code generator and the one-second timer are inputs: a code
    value and a `Tick` call. */
module TwoFactor {
  import opened Wrappers
  import opened Text

  /** The mask glyph the screen is meant to show: U+2022 BULLET. */
  const Bullet := "\U{2022}"
  /** The glyph literal the source file holds: the UTF-8 bytes of U+2022
      read back as Windows-1252, three characters. */
  const MisencodedBullet := "\U{00E2}\U{20AC}\U{00A2}"

  /** `text.repeat(n)`. */
  function RepeatText(text: string, n: nat): (r: string)
    ensures |r| == n * |text|
    ensures n > 0 ==> r[..|text|] == text
  {
    if n == 0 then "" else text + RepeatText(text, n - 1)
  }

  /** The first piece of `s.split("@")`: everything before the first "@". */
  function BeforeAt(s: string): (r: string)
    ensures |r| <= |s| && r == s[..|r|]
    ensures forall i :: 0 <= i < |r| ==> r[i] != '@'
    ensures |r| < |s| ==> s[|r|] == '@'
  {
    if s == [] || s[0] == '@' then "" else [s[0]] + BeforeAt(s[1..])
  }

  /** The second piece of `s.split("@")`, or None (JavaScript's
      `undefined`) when `s` has no "@". */
  function SecondPiece(s: string): (r: Option<string>)
    ensures r.None? <==> forall i :: 0 <= i < |s| ==> s[i] != '@'
  {
    var user := BeforeAt(s);
    if |user| == |s| then None else Some(BeforeAt(s[|user| + 1..]))
  }

  /** How many characters of the local part stay visible. */
  function Shown(localLength: nat): nat {
    if localLength == 0 then 0 else if localLength <= 2 then 1 else 2
  }

  /** `maskedEmail` with the given mask glyph: "your email" for no
      address; otherwise the visible start of the local part, the glyph
      four times, "@" and the domain piece ("undefined" when there is no
      "@"). */
  function MaskWith(email: string, glyph: string): string {
    if email == "" then "your email"
    else
      var user := BeforeAt(email);
      var domain := match SecondPiece(email) case None => "undefined" case Some(d) => d;
      user[..Shown(|user|)] + RepeatText(glyph, 4) + "@" + domain
  }

  /** The placeholder "your email" is shown exactly when there is no
      address: any address yields a text with an "@". */
  lemma PlaceholderOnlyWithoutEmail(email: string, glyph: string)
    ensures MaskWith(email, glyph) == "your email" <==> email == ""
  {
    if email != "" {
      var user := BeforeAt(email);
      var shown := user[..Shown(|user|)] + RepeatText(glyph, 4);
      assert MaskWith(email, glyph)[|shown|] == '@';
      assert forall k :: 0 <= k < |"your email"| ==> "your email"[k] != '@';
    }
  }

  /** `maskedEmail` as the source file spells its glyph. */
  function MaskedEmailAsWritten(email: string): string {
    MaskWith(email, MisencodedBullet)
  }

  /** `maskedEmail` with the bullet it evidently means. */
  function MaskedEmail(email: string): string {
    MaskWith(email, Bullet)
  }

  /** `BeforeAt` stops at the first "@". */
  lemma {:induction false} BeforeFirstAt(s: string, at: nat)
    requires at < |s| && s[at] == '@'
    requires forall i :: 0 <= i < at ==> s[i] != '@'
    ensures BeforeAt(s) == s[..at]
  {
    if at > 0 {
      BeforeFirstAt(s[1..], at - 1);
      assert s[..at] == [s[0]] + s[1..][..at - 1];
    }
  }

  /** Without "@", `BeforeAt` is the whole text. */
  lemma {:induction false} BeforeNoAt(s: string)
    requires forall i :: 0 <= i < |s| ==> s[i] != '@'
    ensures BeforeAt(s) == s
  {
    if s != [] {
      BeforeNoAt(s[1..]);
      assert s == [s[0]] + s[1..];
    }
  }

  /** The two pieces of an address with exactly one "@", at `at`. */
  lemma SplitAtOnlyAt(email: string, at: nat)
    requires at < |email| && email[at] == '@'
    requires forall i :: 0 <= i < |email| && i != at ==> email[i] != '@'
    ensures BeforeAt(email) == email[..at]
    ensures SecondPiece(email) == Some(email[at + 1..])
  {
    BeforeFirstAt(email, at);
    var rest := email[at + 1..];
    forall i | 0 <= i < |rest| ensures rest[i] != '@' {
      assert rest[i] == email[at + 1 + i];
    }
    BeforeNoAt(rest);
  }

  /** For an address with exactly one "@", at index `at`, the mask keeps
      at most the first two characters of the local part (one when the
      local part has at most two), replaces the rest of it by four
      glyphs, and keeps "@" and the domain as they are. */
  lemma MaskKeepsDomain(email: string, at: nat, glyph: string)
    requires at < |email| && email[at] == '@'
    requires forall i :: 0 <= i < |email| && i != at ==> email[i] != '@'
    ensures MaskWith(email, glyph) == email[..Shown(at)] + RepeatText(glyph, 4) + email[at..]
  {
    SplitAtOnlyAt(email, at);
    var user, rest, mask := email[..at], email[at + 1..], RepeatText(glyph, 4);
    assert MaskWith(email, glyph) == user[..Shown(at)] + mask + "@" + rest;
    assert user[..Shown(at)] == email[..Shown(at)];
    assert email[at..] == "@" + rest;
  }

  /** An address without "@" ends in "@undefined". */
  lemma MaskWithoutAt(email: string)
    requires email != "" && forall i :: 0 <= i < |email| ==> email[i] != '@'
    ensures var r := MaskedEmail(email); |r| >= 10 && r[|r| - 10..] == "@undefined"
  {
    BeforeNoAt(email);
  }

  /** The source's glyph literal renders four three-character groups
      instead of four bullets: for any address with one "@" the character
      after the visible start is not a bullet, and the text is eight
      characters longer than the intended one. */
  lemma MisencodedMask(email: string, at: nat)
    requires at < |email| && email[at] == '@'
    requires forall i :: 0 <= i < |email| && i != at ==> email[i] != '@'
    ensures MaskedEmailAsWritten(email) == email[..Shown(at)] + RepeatText(MisencodedBullet, 4) + email[at..]
    ensures MaskedEmailAsWritten(email)[Shown(at)] != '\U{2022}'
    ensures |MaskedEmailAsWritten(email)| == |MaskedEmail(email)| + 8
  {
    MaskKeepsDomain(email, at, MisencodedBullet);
    MaskKeepsDomain(email, at, Bullet);
    RepeatedGlyphs(MisencodedBullet, email[..Shown(at)], email[at..]);
    RepeatedGlyphs(Bullet, email[..Shown(at)], email[at..]);
  }

  /** On the demo address "alice@bank.com" the third character shown,
      right after "al", is not a bullet. */
  lemma MisencodedMaskShown(email: string)
    requires email == "alice@bank.com"
    ensures MaskedEmailAsWritten(email)[2] != '\U{2022}'
    ensures |MaskedEmailAsWritten(email)| == |MaskedEmail(email)| + 8
  {
    DemoAddressOneAt();
    MisencodedMask(email, 5);
  }

  /** The demo address has its only "@" at index 5. */
  lemma DemoAddressOneAt()
    ensures "alice@bank.com"[5] == '@'
    ensures forall i :: 0 <= i < 14 && i != 5 ==> "alice@bank.com"[i] != '@'
  {
    var e := "alice@bank.com";
    forall i | 0 <= i < 14 && i != 5 ensures e[i] != '@' {
      assert e == ['a', 'l', 'i', 'c', 'e', '@', 'b', 'a', 'n', 'k', '.', 'c', 'o', 'm'];
    }
  }

  /** Four copies of a glyph between a visible start and a domain: where
      the glyph begins and how long the whole text is. */
  lemma RepeatedGlyphs(glyph: string, start: string, domain: string)
    requires |glyph| > 0
    ensures var r := start + RepeatText(glyph, 4) + domain;
      r[|start|] == glyph[0] && |r| == |start| + 4 * |glyph| + |domain|
  {
    var r := start + RepeatText(glyph, 4) + domain;
    assert r[|start|] == RepeatText(glyph, 4)[0];
  }

  /** With the intended glyph, the mask of an address with one "@" shows
      the four bullets right after the visible start. */
  lemma BulletsShown(email: string, at: nat)
    requires at < |email| && email[at] == '@'
    requires forall i :: 0 <= i < |email| && i != at ==> email[i] != '@'
    ensures var r := MaskedEmail(email);
      |r| == Shown(at) + 4 + |email| - at &&
      forall k :: Shown(at) <= k < Shown(at) + 4 ==> r[k] == '\U{2022}'
  {
    MaskKeepsDomain(email, at, Bullet);
    var b := RepeatText(Bullet, 4);
    assert b == Bullet + Bullet + Bullet + Bullet;
  }

  // The screen.

  const EmptyPinText := "Please enter the PIN."
  const NoAttemptsText := "No attempts left."
  const VerifiedText := "PIN verified. Welcome!"

  function AttemptsLeftText(left: int): string {
    "Incorrect PIN. Attempts left: " + IntToString(left)
  }

  function SentText(masked: string, code: string): string {
    "We sent a 6-digit code to " + masked + ". (demo code: " + code + ")"
  }

  function ResentText(masked: string, code: string): string {
    "New code sent to " + masked + ". (demo code: " + code + ")"
  }

  /** What the screen asks its parent to do. */
  datatype Signal = NoSignal | Cancel | Verified

  /** A generated code: `String(n)` for a six-digit number. */
  predicate IsCode(c: string) {
    |c| == 6 && AllDigits(c) && c[0] != '0'
  }

  lemma GeneratedIsCode(generated: nat)
    requires 100000 <= generated <= 999999
    ensures IsCode(NatToString(generated))
  {
    SixDigits(generated);
  }

  class TwoFactorScreen {
    const email: string
    var pin: string
    var attemptsLeft: int
    var cooldown: int
    var message: string
    var error: string
    /** `codeRef.current`. */
    var code: string

    ghost predicate Valid()
      reads this
    {
      && 0 <= cooldown <= 30
      && attemptsLeft <= 3
      && AllDigits(pin)
      && IsCode(code)
    }

    /** The screen as mounted: the first code is generated and announced
        and the resend cooldown starts at 30. `generated` stands for the
        random draw, which lies between 100000 and 999999. */
    constructor (email: string, generated: nat)
      requires 100000 <= generated <= 999999
      ensures Valid()
      ensures this.email == email && pin == "" && attemptsLeft == 3 && cooldown == 30 && error == ""
      ensures code == NatToString(generated) && message == SentText(MaskedEmail(email), code)
    {
      this.email := email;
      pin := "";
      attemptsLeft := 3;
      cooldown := 30;
      error := "";
      code := NatToString(generated);
      message := SentText(MaskedEmail(email), NatToString(generated));
      GeneratedIsCode(generated);
    }

    /** The PIN field's change handler: only the digits of the typed text
        are kept. */
    method EnterPin(input: string)
      requires Valid()
      modifies this`pin
      ensures Valid() && pin == DigitsOnly(input)
    {
      pin := DigitsOnly(input);
    }

    /** `handleVerify`. An empty PIN only sets its error. A wrong PIN costs
        exactly one attempt, clears the field and reports what is left,
        and the attempt that leaves none asks the parent to cancel. The
        right PIN asks the parent to proceed and costs nothing. */
    method HandleVerify() returns (signal: Signal)
      requires Valid()
      modifies this`pin, this`attemptsLeft, this`error, this`message
      ensures Valid()
      ensures old(pin) == "" ==>
        && error == EmptyPinText && signal == NoSignal
        && pin == old(pin) && attemptsLeft == old(attemptsLeft) && message == old(message)
      ensures old(pin) != "" && old(pin) != code ==>
        && attemptsLeft == old(attemptsLeft) - 1 && pin == "" && message == old(message)
        && error == (if attemptsLeft > 0 then AttemptsLeftText(attemptsLeft) else NoAttemptsText)
        && (signal == Cancel <==> attemptsLeft <= 0) && signal != Verified
      ensures old(pin) == code ==>
        && message == VerifiedText && error == "" && signal == Verified
        && pin == old(pin) && attemptsLeft == old(attemptsLeft)
    {
      error := "";
      if pin == "" {
        error := EmptyPinText;
        return NoSignal;
      }
      if pin != code {
        var left := attemptsLeft - 1;
        attemptsLeft := left;
        error := if left > 0 then AttemptsLeftText(left) else NoAttemptsText;
        pin := "";
        signal := if left <= 0 then Cancel else NoSignal;
        return;
      }
      message := VerifiedText;
      signal := Verified;
    }

    /** `handleResend`: nothing while the cooldown runs; afterwards a new
        code is generated and announced and the cooldown restarts. */
    method HandleResend(generated: nat)
      requires Valid() && 100000 <= generated <= 999999
      modifies this`code, this`cooldown, this`message
      ensures Valid()
      ensures old(cooldown) > 0 ==> code == old(code) && cooldown == old(cooldown) && message == old(message)
      ensures old(cooldown) <= 0 ==>
        code == NatToString(generated) && cooldown == 30 && message == ResentText(MaskedEmail(email), code)
    {
      if cooldown > 0 {
        return;
      }
      code := NatToString(generated);
      cooldown := 30;
      message := ResentText(MaskedEmail(email), code);
      GeneratedIsCode(generated);
    }

    /** One second of the cooldown timer, which runs only while the
        cooldown is positive. */
    method Tick()
      requires Valid()
      modifies this`cooldown
      ensures Valid()
      ensures cooldown == if old(cooldown) > 0 then old(cooldown) - 1 else old(cooldown)
    {
      if cooldown > 0 {
        cooldown := cooldown - 1;
      }
    }
  }
}
