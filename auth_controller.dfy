/** The authentication controller's own logic: reading the bearer token out
    of the Authorization header, and calling the service's logout only for a
    non-empty token. */
module AuthController {
  import opened Common
  import opened Auth

  /** JavaScript's `s.split(' ')`: the pieces between single spaces, empty
      pieces included; the empty string gives one empty piece. */
  function Split(s: string): (pieces: seq<string>)
    ensures |pieces| >= 1
    ensures forall i :: 0 <= i < |pieces| ==> ' ' !in pieces[i]
  {
    if s == [] then [""]
    else
      var rest := Split(s[1..]);
      if s[0] == ' ' then [""] + rest
      else [[s[0]] + rest[0]] + rest[1..]
  }

  /** JavaScript's `pieces.join(' ')`. */
  function Join(pieces: seq<string>): string
    requires |pieces| >= 1
  {
    if |pieces| == 1 then pieces[0] else pieces[0] + " " + Join(pieces[1..])
  }

  lemma {:induction false} JoinSplit(s: string)
    ensures Join(Split(s)) == s
  {
    if s != [] {
      JoinSplit(s[1..]);
      var rest := Split(s[1..]);
      if s[0] == ' ' {
        assert Split(s) == [""] + rest;
        assert Split(s)[1..] == rest;
      } else {
        assert Split(s) == [[s[0]] + rest[0]] + rest[1..];
        if |rest| > 1 {
          assert Split(s)[1..] == rest[1..];
          assert Join(rest) == rest[0] + " " + Join(rest[1..]);
        }
      }
    }
  }

  lemma {:induction false} SplitNoSpace(a: string)
    requires ' ' !in a
    ensures Split(a) == [a]
  {
    if a != [] {
      SplitNoSpace(a[1..]);
      assert [a[0]] + a[1..] == a;
    }
  }

  /** A space-free prefix followed by a space is the first piece. */
  lemma {:induction false} SplitAfterSpace(a: string, b: string)
    requires ' ' !in a
    ensures Split(a + " " + b) == [a] + Split(b)
  {
    var s := a + " " + b;
    if a == [] {
      assert s == " " + b;
      assert s[1..] == b;
    } else {
      assert s[1..] == a[1..] + " " + b;
      SplitAfterSpace(a[1..], b);
      assert [a[0]] + a[1..] == a;
    }
  }

  lemma SplitJoin(pieces: seq<string>)
    requires |pieces| >= 1
    requires forall i :: 0 <= i < |pieces| ==> ' ' !in pieces[i]
    ensures Split(Join(pieces)) == pieces
    decreases |pieces|
  {
    if |pieces| == 1 {
      SplitNoSpace(pieces[0]);
    } else {
      SplitJoin(pieces[1..]);
      SplitAfterSpace(pieces[0], Join(pieces[1..]));
      assert [pieces[0]] + pieces[1..] == pieces;
    }
  }

  /** The first piece is the text up to the first space; when a space
      follows it, the remaining pieces are the split of what comes after. */
  lemma {:induction false} SplitHead(s: string)
    ensures |Split(s)[0]| <= |s| && s[..|Split(s)[0]|] == Split(s)[0]
    ensures |Split(s)| == 1 <==> |Split(s)[0]| == |s|
    ensures |Split(s)| >= 2 ==> s[|Split(s)[0]|] == ' '
                                && Split(s)[1..] == Split(s[|Split(s)[0]| + 1..])
  {
    if s != [] {
      var rest := Split(s[1..]);
      SplitHead(s[1..]);
      if s[0] != ' ' {
        var head := [s[0]] + rest[0];
        assert Split(s) == [head] + rest[1..];
        assert s[..|head|] == [s[0]] + s[1..][..|rest[0]|];
        if |rest| >= 2 {
          assert s[|head| + 1..] == s[1..][|rest[0]| + 1..];
        }
      }
    }
  }

  /** `extractTokenFromHeader`: `[type, token] = authorization?.split(' ') ?? []`,
      then `token` when `type` is exactly "Bearer". */
  function ExtractTokenFromHeader(authorization: Option<string>): (token: Option<string>)
    ensures token.Some? ==> authorization.Some? && ' ' !in token.value
  {
    match authorization
    case None => None
    case Some(header) =>
      var pieces := Split(header);
      if pieces[0] == "Bearer" then (if |pieces| >= 2 then Some(pieces[1]) else None) else None
  }

  /** A token is extracted exactly when the header starts with "Bearer "
      (case-sensitive); it is the space-free text that follows, up to the
      next space or the end, so any further pieces are ignored. */
  lemma ExtractTokenCharacterised(header: string)
    ensures ExtractTokenFromHeader(Some(header)).Some? <==> |header| >= 7 && header[..7] == "Bearer "
    ensures ExtractTokenFromHeader(Some(header)).Some? ==>
              var token := ExtractTokenFromHeader(Some(header)).value;
              && ' ' !in token
              && 7 + |token| <= |header|
              && header[7..7 + |token|] == token
              && (7 + |token| == |header| || header[7 + |token|] == ' ')
  {
    SplitHead(header);
    var pieces := Split(header);
    if |header| >= 7 && header[..7] == "Bearer " {
      var rest := header[7..];
      assert header == "Bearer" + " " + rest;
      SplitAfterSpace("Bearer", rest);
      SplitHead(rest);
      assert pieces[1] == Split(rest)[0];
    }
  }

  lemma MissingHeaderGivesNothing()
    ensures ExtractTokenFromHeader(None) == None
  {
  }

  /** Any other scheme gives nothing, lower-case "bearer" included. */
  lemma OtherSchemeGivesNothing(scheme: string, rest: string)
    requires ' ' !in scheme && scheme != "Bearer"
    ensures ExtractTokenFromHeader(Some(scheme + " " + rest)) == None
    ensures ExtractTokenFromHeader(Some("bearer " + rest)) == None
  {
    SplitAfterSpace(scheme, rest);
    assert "bearer " + rest == "bearer" + " " + rest;
    SplitAfterSpace("bearer", rest);
  }

  /** Pieces after the second are ignored: "Bearer a b" gives "a". */
  lemma ExtraPiecesIgnored(token: string, rest: string)
    requires ' ' !in token
    ensures ExtractTokenFromHeader(Some("Bearer " + token + " " + rest)) == Some(token)
  {
    var tail := token + " " + rest;
    SplitAfterSpace(token, rest);
    assert "Bearer " + token + " " + rest == "Bearer" + " " + tail;
    SplitAfterSpace("Bearer", tail);
  }

  /** "Bearer" with nothing after it gives nothing; "Bearer " gives the empty
      token. */
  lemma BareSchemeExamples()
    ensures ExtractTokenFromHeader(Some("Bearer")) == None
    ensures ExtractTokenFromHeader(Some("Bearer ")) == Some("")
  {
    SplitNoSpace("Bearer");
    assert "Bearer " == "Bearer" + " " + "";
    SplitAfterSpace("Bearer", "");
  }

  /** The message `logout` answers with, whatever happened. */
  const LogoutMessage: string := "로그아웃 되었습니다."

  /** `logout`: the service is asked to blacklist the bearer token only when
      one was extracted and it is not empty; the answer is always the same. */
  method Logout(service: AuthService, authorization: Option<string>, jwt: Jwt, now: int, setFails: bool)
    returns (message: string)
    modifies service
    ensures message == LogoutMessage
    ensures var token := ExtractTokenFromHeader(authorization);
            if token.Some? && token.value != "" then
              service.cache == LogoutStore(old(service.cache), token.value, jwt.decode(token.value), now, setFails)
            else
              service.cache == old(service.cache)
  {
    var token := ExtractTokenFromHeader(authorization);
    if token.Some? && token.value != "" {
      service.Logout(token.value, jwt, now, setFails);
    }
    message := LogoutMessage;
  }
}
