/**
 * Bearer-token validation of the agent's HTTP handlers
 * (`Server.ValidateHeader` in ansible/server.go).
 *
 * The presented token is taken from the `Authorization` header by splitting it on
 * a single space character, exactly as Go's `strings.Split(auth, " ")` does: the
 * second piece when there are at least two pieces, the whole header otherwise.
 * It is then compared for equality with the process-wide token.
 */
module Auth {

  const Space: char := ' '

  /** Glues `pieces` back together with `sep` between consecutive pieces. */
  function Join(pieces: seq<string>, sep: char): string
  {
    if |pieces| == 0 then ""
    else if |pieces| == 1 then pieces[0]
    else pieces[0] + [sep] + Join(pieces[1..], sep)
  }

  /** Every piece is free of the separator. */
  predicate SepFree(pieces: seq<string>, sep: char)
  {
    forall i :: 0 <= i < |pieces| ==> sep !in pieces[i]
  }

  /**
   * Go's `strings.Split(s, string(sep))`: the maximal separator-free pieces of `s`,
   * in order. The empty string splits into one empty piece, and two adjacent
   * separators give an empty piece between them.
   */
  function Split(s: string, sep: char): (pieces: seq<string>)
    ensures |pieces| >= 1
    ensures Join(pieces, sep) == s
    ensures SepFree(pieces, sep)
    ensures |pieces| == 1 <==> sep !in s
    decreases |s|
  {
    if s == [] then [[]]
    else
      var rest := Split(s[1..], sep);
      if s[0] == sep then
        assert s == [sep] + Join(rest, sep);
        [[]] + rest
      else
        var pieces := [[s[0]] + rest[0]] + rest[1..];
        assert Join(pieces, sep) == s by {
          if |rest| > 1 {
            assert rest == [rest[0]] + rest[1..];
            assert Join(rest, sep) == rest[0] + [sep] + Join(rest[1..], sep);
          }
        }
        assert sep !in pieces[0] by {
          assert pieces[0] == [s[0]] + rest[0];
        }
        pieces
  }

  /** The decomposition computed by `Split` is the only one into separator-free pieces. */
  lemma {:induction false} SplitUnique(s: string, sep: char, pieces: seq<string>)
    requires |pieces| >= 1 && SepFree(pieces, sep) && Join(pieces, sep) == s
    ensures pieces == Split(s, sep)
    decreases |s|
  {
    if |pieces| > 1 {
      var head := pieces[0];
      var tail := pieces[1..];
      assert s == head + [sep] + Join(tail, sep);
      assert SepFree(tail, sep) by {
        forall i | 0 <= i < |tail| ensures sep !in tail[i] { assert tail[i] == pieces[i + 1]; }
      }
      SplitAt(head, Join(tail, sep), sep);
      SplitUnique(Join(tail, sep), sep, tail);
    } else {
      assert sep !in s;
    }
  }

  /** Splitting `head + sep + rest` with a separator-free `head` yields `head` first. */
  lemma {:induction false} SplitAt(head: string, rest: string, sep: char)
    requires sep !in head
    ensures Split(head + [sep] + rest, sep) == [head] + Split(rest, sep)
    decreases |head|
  {
    var s := head + [sep] + rest;
    if head == [] {
      assert s[0] == sep && s[1..] == rest;
    } else {
      assert s[0] == head[0] != sep;
      assert s[1..] == head[1..] + [sep] + rest;
      SplitAt(head[1..], rest, sep);
      var r := Split(s[1..], sep);
      assert r == [head[1..]] + Split(rest, sep);
      assert Split(s, sep) == [[s[0]] + r[0]] + r[1..];
      assert [s[0]] + r[0] == head;
    }
  }

  /**
   * The token a request presents in its `Authorization` header (ansible/server.go:53-60):
   * a space-free field of the header, the whole header when it has no space and a
   * strictly shorter field when it has one.
   */
  function PresentedToken(header: string): (token: string)
    ensures Space !in token
    ensures Space !in header ==> token == header
    ensures Space in header ==> |token| < |header|
  {
    var al := Split(header, Space);
    if |al| > 1 then
      assert |Join(al, Space)| == |al[0]| + 1 + |Join(al[1..], Space)|;
      assert |Join(al[1..], Space)| >= |al[1]| by { JoinFirstLength(al[1..], Space); }
      al[1]
    else header
  }

  lemma JoinFirstLength(pieces: seq<string>, sep: char)
    requires |pieces| >= 1
    ensures |Join(pieces, sep)| >= |pieces[0]|
  {
  }

  /**
   * `ValidateHeader` succeeds iff the presented token equals the configured one; so a
   * configured token containing a space admits nothing, and a header without a space
   * passes exactly when it is the token itself.
   */
  predicate ValidateHeader(header: string, authToken: string)
    ensures ValidateHeader(header, authToken) ==> Space !in authToken
    ensures Space !in header ==> (ValidateHeader(header, authToken) <==> header == authToken)
  {
    PresentedToken(header) == authToken
  }

  /** A header without a space is compared as a whole ("bare token" form). */
  lemma BareHeaderIsToken(header: string)
    requires Space !in header
    ensures PresentedToken(header) == header
    ensures ValidateHeader(header, header)
  {
  }

  /**
   * In `<scheme> <token>[ <more>]` the token is the field after the first space,
   * whatever follows it; the scheme itself is never checked.
   */
  lemma {:induction false} SchemeHeaderToken(scheme: string, token: string, more: string)
    requires Space !in scheme && Space !in token
    requires more == [] || more[0] == Space
    ensures PresentedToken(scheme + [Space] + token + more) == token
  {
    var header := scheme + [Space] + token + more;
    assert header == scheme + [Space] + (token + more);
    SplitAt(scheme, token + more, Space);
    if more == [] {
      assert token + more == token;
    } else {
      assert token + more == token + [Space] + more[1..];
      SplitAt(token, more[1..], Space);
    }
  }

  /** The presented token never contains a space. */
  lemma PresentedTokenSpaceFree(header: string)
    ensures Space !in PresentedToken(header)
  {
    var al := Split(header, Space);
    if |al| > 1 {
      assert Space !in al[1];
    }
  }

  /** A configured token containing a space can never be presented, so it locks every client out. */
  lemma SpacedTokenRejectsAll(header: string, authToken: string)
    requires Space in authToken
    ensures !ValidateHeader(header, authToken)
  {
    PresentedTokenSpaceFree(header);
  }

  /**
   * With the token left empty (HTTP authentication disabled, main.go:62-63) a request
   * with no `Authorization` header passes, and so does one whose second field is empty.
   * With `more` empty the header is `<scheme> `, which net/http never delivers (it trims
   * trailing blanks from header values); `<scheme>  <rest>` reaches the handler.
   */
  lemma EmptyTokenAdmits(scheme: string, more: string)
    requires Space !in scheme
    requires more == [] || more[0] == Space
    ensures ValidateHeader("", "")
    ensures ValidateHeader(scheme + [Space] + more, "")
  {
    SchemeHeaderToken(scheme, "", more);
    assert scheme + [Space] + "" + more == scheme + [Space] + more;
  }

  /** Two spaces after the scheme present the empty token, not the text after them. */
  lemma DoubleSpacePresentsEmptyToken()
    ensures PresentedToken("Bearer  tok") == ""
  {
    SchemeHeaderToken("Bearer", "", " tok");
    assert "Bearer" + [Space] + "" + " tok" == "Bearer  tok";
  }
}
