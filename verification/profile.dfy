/** The text stored under `user_info`: `JSON.stringify({username, role})`,
    and the `JSON.parse` that `getUser` applies to it. Only the escapes
    the gateway's own values need (`"` and `\`) are modelled. */
module Profile {
  import opened Wrappers

  /** The cached user profile; a field the server did not send is None and
      is left out of the stored text, as `JSON.stringify` leaves out
      `undefined` members. */
  datatype Profile = Profile(username: Option<string>, role: Option<string>)

  /** The body of a JSON string literal for `s`. */
  function Escape(s: string): string {
    if s == [] then []
    else (if s[0] == '"' || s[0] == '\\' then ['\\', s[0]] else [s[0]]) + Escape(s[1..])
  }

  /** Reads a JSON string literal whose opening quote is already consumed:
      its value and the text after the closing quote. */
  function ReadString(s: string): Option<(string, string)>
    decreases |s|
  {
    if s == [] then None
    else if s[0] == '"' then Some(([], s[1..]))
    else if s[0] == '\\' then
      if |s| < 2 then None
      else match ReadString(s[2..])
        case None => None
        case Some(p) => Some(([s[1]] + p.0, p.1))
    else match ReadString(s[1..])
      case None => None
      case Some(p) => Some(([s[0]] + p.0, p.1))
  }

  /** Reading an escaped literal gives back the value and stops at its
      closing quote. */
  lemma {:induction false} ReadEscaped(x: string, rest: string)
    ensures ReadString(Escape(x) + "\"" + rest) == Some((x, rest))
  {
    if x != [] {
      ReadEscaped(x[1..], rest);
      var head := if x[0] == '"' || x[0] == '\\' then ['\\', x[0]] else [x[0]];
      var t := Escape(x) + "\"" + rest;
      assert t == head + (Escape(x[1..]) + "\"" + rest);
      assert x == [x[0]] + x[1..];
      if |head| == 2 {
        assert t[2..] == Escape(x[1..]) + "\"" + rest;
      } else {
        assert t[1..] == Escape(x[1..]) + "\"" + rest;
      }
    }
  }

  const UsernameOpen := "{\"username\":\""
  const RoleAfterUsername := ",\"role\":\""
  const RoleOpen := "{\"role\":\""

  /** `JSON.stringify({ username, role })`. */
  function Serialize(p: Profile): string {
    match (p.username, p.role)
    case (Some(u), Some(r)) => UsernameOpen + Escape(u) + "\"" + (RoleAfterUsername + Escape(r) + "\"" + "}")
    case (Some(u), None) => UsernameOpen + Escape(u) + "\"" + "}"
    case (None, Some(r)) => RoleOpen + Escape(r) + "\"" + "}"
    case (None, None) => "{}"
  }

  /** `t` begins with `open`. */
  predicate StartsWith(t: string, open: string) {
    |t| >= |open| && t[..|open|] == open
  }

  /** The value of the last member: a literal followed by the closing
      brace and nothing else. */
  function ReadLast(s: string): Option<string> {
    match ReadString(s)
    case None => None
    case Some((v, rest)) => if rest == "}" then Some(v) else None
  }

  /** The members after `{"username":"`. */
  function ParseFromUsername(s: string): Option<Profile> {
    match ReadString(s)
    case None => None
    case Some((u, rest)) =>
      if rest == "}" then Some(Profile(Some(u), None))
      else if StartsWith(rest, RoleAfterUsername) then
        match ReadLast(rest[|RoleAfterUsername|..])
        case None => None
        case Some(r) => Some(Profile(Some(u), Some(r)))
      else None
  }

  /** `JSON.parse` of a stored profile; None for text that is not one. */
  function Parse(t: string): Option<Profile> {
    if t == "{}" then Some(Profile(None, None))
    else if StartsWith(t, UsernameOpen) then ParseFromUsername(t[|UsernameOpen|..])
    else if StartsWith(t, RoleOpen) then
      match ReadLast(t[|RoleOpen|..])
      case None => None
      case Some(r) => Some(Profile(None, Some(r)))
    else None
  }

  /** After a fixed opening, an escaped literal reads back as its value
      followed by what comes after it. */
  lemma ReadAfterOpening(open: string, x: string, rest: string)
    ensures var t := open + (Escape(x) + "\"" + rest);
      StartsWith(t, open) && ReadString(t[|open|..]) == Some((x, rest))
  {
    var t := open + (Escape(x) + "\"" + rest);
    assert t[|open|..] == Escape(x) + "\"" + rest;
    ReadEscaped(x, rest);
  }

  /** A stored profile with both fields reads back. */
  lemma ParseBoth(u: string, r: string)
    ensures Parse(Serialize(Profile(Some(u), Some(r)))) == Some(Profile(Some(u), Some(r)))
  {
    var tail := RoleAfterUsername + (Escape(r) + "\"" + "}");
    var t := UsernameOpen + (Escape(u) + "\"" + tail);
    assert Serialize(Profile(Some(u), Some(r))) == t;
    ReadAfterOpening(RoleAfterUsername, r, "}");
    assert ReadLast(tail[|RoleAfterUsername|..]) == Some(r);
    assert tail != "}" by { assert |tail| > 1; }
    ReadAfterOpening(UsernameOpen, u, tail);
    assert ParseFromUsername(t[|UsernameOpen|..]) == Some(Profile(Some(u), Some(r)));
    assert t != "{}" by { assert t[0..2] == "{\"" != "{}"; }
  }

  /** A stored profile with only a username reads back. */
  lemma ParseUsernameOnly(u: string)
    ensures Parse(Serialize(Profile(Some(u), None))) == Some(Profile(Some(u), None))
  {
    var t := UsernameOpen + (Escape(u) + "\"" + "}");
    assert Serialize(Profile(Some(u), None)) == t;
    ReadAfterOpening(UsernameOpen, u, "}");
    assert t != "{}" by { assert t[0..2] == "{\"" != "{}"; }
  }

  /** A stored profile with only a role reads back: its opening is not
      the username opening. */
  lemma ParseRoleOnly(r: string)
    ensures Parse(Serialize(Profile(None, Some(r)))) == Some(Profile(None, Some(r)))
  {
    var t := RoleOpen + (Escape(r) + "\"" + "}");
    assert Serialize(Profile(None, Some(r))) == t;
    ReadAfterOpening(RoleOpen, r, "}");
    assert t != "{}" by { assert t[0..2] == "{\"" != "{}"; }
    assert !StartsWith(t, UsernameOpen) by { assert t[2] == 'r' && UsernameOpen[2] == 'u'; }
  }

  /** What `getUser` reads back is the profile that was stored. */
  lemma ParseSerialize(p: Profile)
    ensures Parse(Serialize(p)) == Some(p)
  {
    match (p.username, p.role)
    case (Some(u), Some(r)) => ParseBoth(u, r);
    case (Some(u), None) => ParseUsernameOnly(u);
    case (None, Some(r)) => ParseRoleOnly(r);
    case (None, None) =>
  }
}
