/** The sign-in screen of `src/LoginPage.jsx`: the session token it makes
    from 32 random bytes, and its submit handler. The random bytes are an
    input; the half-second pause before the success message is not
    modelled. */
module Login {
  import opened Wrappers
  import opened Base64

  /** `btoa`: each character of a binary string stands for the octet with
      its code, and the octets are Base64-encoded (section 4 of RFC 4648). */
  function Btoa(binary: string): string
    requires forall k :: 0 <= k < |binary| ==> binary[k] as int < 256
  {
    Encode(seq(|binary|, k requires 0 <= k < |binary| => binary[k] as int as Byte))
  }

  /** `base64UrlEncode(bytes)`: one character per byte appended to
      `binary`, `btoa`, then the URL-safe rewriting of section 5 of RFC 4648
      with the padding removed. The result is in the URL-safe alphabet
      (so holds no `+`, `/` or `=`), has ⌈4n/3⌉ characters for n bytes, and
      decodes back to the bytes. */
  method Base64UrlEncode(bytes: seq<Byte>) returns (r: string)
    ensures r == UrlEncode(bytes)
    ensures forall i :: 0 <= i < |r| ==> InUrlAlphabet(r[i])
    ensures |r| == (4 * |bytes| + 2) / 3
    ensures UrlDecode(r) == Some(bytes)
  {
    var binary := "";
    var i := 0;
    while i < |bytes|
      invariant 0 <= i <= |bytes|
      invariant |binary| == i
      invariant forall k :: 0 <= k < i ==> binary[k] as int == bytes[k]
    {
      binary := binary + [bytes[i] as char];
      i := i + 1;
    }
    var b64 := Btoa(binary);
    assert seq(|binary|, k requires 0 <= k < |binary| => binary[k] as int as Byte) == bytes;
    r := StripPadding(ToUrlAlphabet(b64));
    UrlEncodeAlphabet(bytes);
    UrlEncodeLength(bytes);
    UrlRoundTrip(bytes);
  }

  /** `generateToken()`, given the 32 bytes `crypto.getRandomValues`
      fills in: 256 bits make 43 characters. */
  method GenerateToken(random: seq<Byte>) returns (token: string)
    requires |random| == 32
    ensures |token| == 43 && UrlDecode(token) == Some(random)
  {
    token := Base64UrlEncode(random);
  }

  const TokenKey := "sb_token"
  const FillBothText := "Please fill in both fields."
  const DemoSuccessText := "Logged in successfully! (Demo mode)"
  const TokenSentText := "Logged in! Token sent to backend."

  /** What the handler does outside the screen's own state, in order. */
  datatype Effect =
    | Stored(key: string, value: string)   // `localStorage.setItem`
    | Notified(email: string)              // `onSuccess(email)`

  class LoginScreen {
    var email: string
    var password: string
    var loading: bool
    var error: string
    var message: string
    /** The browser's key-value store. */
    var storage: map<string, string>
    /** Every write to storage and every call of `onSuccess`, in order. */
    ghost var effects: seq<Effect>

    constructor (storage: map<string, string>)
      ensures email == "" && password == "" && !loading && error == "" && message == ""
      ensures this.storage == storage && effects == []
    {
      email := "";
      password := "";
      loading := false;
      error := "";
      message := "";
      this.storage := storage;
      effects := [];
    }

    method SetEmail(value: string)
      modifies this`email
      ensures email == value
    {
      email := value;
    }

    method SetPassword(value: string)
      modifies this`password
      ensures password == value
    {
      password := value;
    }

    /** `handleSubmit`. With a field empty: the error asks for both fields
        and neither storage nor the parent hears of it. Otherwise a fresh
        token is stored under `sb_token` first, the parent is told the
        email next, and the handler ends with `loading` false. */
    method HandleSubmit(random: seq<Byte>) returns (notified: Option<string>)
      requires |random| == 32
      modifies this`loading, this`error, this`message, this`storage, this`effects
      ensures email == "" || password == "" ==>
        && error == FillBothText && message == "" && notified == None
        && loading == old(loading) && storage == old(storage) && effects == old(effects)
      ensures email != "" && password != "" ==>
        && notified == Some(email) && !loading && error == "" && message == TokenSentText
        && TokenKey in storage && storage == old(storage)[TokenKey := storage[TokenKey]]
        && |storage[TokenKey]| == 43 && UrlDecode(storage[TokenKey]) == Some(random)
        && effects == old(effects) + [Stored(TokenKey, storage[TokenKey]), Notified(email)]
    {
      error := "";
      message := "";
      if email == "" || password == "" {
        error := FillBothText;
        return None;
      }
      loading := true;
      var token := GenerateToken(random);
      storage := storage[TokenKey := token];
      effects := effects + [Stored(TokenKey, token)];
      message := DemoSuccessText;
      effects := effects + [Notified(email)];
      notified := Some(email);
      message := TokenSentText;
      loading := false;
    }
  }
}
