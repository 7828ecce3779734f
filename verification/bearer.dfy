/** Reading the `Authorization` header the way the API middleware does: split it on single spaces,
    demand that the first piece be exactly `Bearer` (case-sensitive) and take the second piece as the
    credential. This is a simplified form of the Bearer scheme of section 2.1 of RFC 6750. */
module Bearer {
  import opened Base

  /** JavaScript's `s.split(' ')`: the pieces between single spaces, empty pieces kept. */
  function Split(s: string): (r: seq<string>)
    ensures |r| >= 1
    ensures forall i :: 0 <= i < |r| ==> ' ' !in r[i]
  {
    if |s| == 0 then [""]
    else
      var rest := Split(s[1..]);
      if s[0] == ' ' then [""] + rest else [[s[0]] + rest[0]] + rest[1..]
  }

  /** `ps.join(' ')`. */
  function Join(ps: seq<string>): string
    requires |ps| >= 1
  {
    if |ps| == 1 then ps[0] else ps[0] + " " + Join(ps[1..])
  }

  /** Joining the pieces back gives the original string. */
  lemma {:induction false} JoinSplit(s: string)
    ensures Join(Split(s)) == s
  {
    if |s| > 0 {
      var rest := Split(s[1..]);
      JoinSplit(s[1..]);
      if s[0] == ' ' {
        assert Split(s) == [""] + rest;
        assert ([""] + rest)[1..] == rest;
        assert s == " " + s[1..];
      } else {
        var ps := [[s[0]] + rest[0]] + rest[1..];
        assert Split(s) == ps;
        if |rest| == 1 {
          assert Join(ps) == [s[0]] + rest[0] == [s[0]] + Join(rest);
        } else {
          assert ps[1..] == rest[1..];
          assert Join(rest) == rest[0] + " " + Join(rest[1..]);
          assert Join(ps) == ([s[0]] + rest[0]) + " " + Join(rest[1..]);
          assert Join(ps) == [s[0]] + Join(rest);
        }
        assert s == [s[0]] + s[1..];
      }
    }
  }

  /** A string without spaces is a single piece. */
  lemma {:induction false} SplitNoSpace(a: string)
    requires ' ' !in a
    ensures Split(a) == [a]
  {
    if |a| > 0 {
      assert ' ' !in a[1..] by {
        forall i | 0 <= i < |a[1..]| ensures a[1..][i] != ' ' {
          assert a[1..][i] == a[i + 1];
        }
      }
      SplitNoSpace(a[1..]);
      assert [a[0]] + a[1..] == a;
    }
  }

  /** A leading space-free piece followed by a space splits off as the first piece. */
  lemma {:induction false} SplitAfter(a: string, b: string)
    requires ' ' !in a
    ensures Split(a + " " + b) == [a] + Split(b)
  {
    var s := a + " " + b;
    if |a| == 0 {
      assert s == " " + b;
      assert s[1..] == b;
    } else {
      assert s[1..] == a[1..] + " " + b;
      assert ' ' !in a[1..] by {
        forall i | 0 <= i < |a[1..]| ensures a[1..][i] != ' ' {
          assert a[1..][i] == a[i + 1];
        }
      }
      SplitAfter(a[1..], b);
      assert s[0] == a[0] != ' ';
      assert [a[0]] + a[1..] == a;
    }
  }

  /** Splitting undoes joining when no piece holds a space. */
  lemma {:induction false} SplitJoin(ps: seq<string>)
    requires |ps| >= 1
    requires forall i :: 0 <= i < |ps| ==> ' ' !in ps[i]
    ensures Split(Join(ps)) == ps
  {
    if |ps| == 1 {
      SplitNoSpace(ps[0]);
    } else {
      SplitJoin(ps[1..]);
      SplitAfter(ps[0], Join(ps[1..]));
      assert [ps[0]] + ps[1..] == ps;
    }
  }

  /** The index of the first space in `s`, or `|s|` when there is none. */
  function FirstSpace(s: string): (k: nat)
    ensures k <= |s|
    ensures ' ' !in s[..k]
    ensures k < |s| ==> s[k] == ' '
  {
    if |s| == 0 || s[0] == ' ' then 0
    else
      var k := 1 + FirstSpace(s[1..]);
      assert s[..k] == [s[0]] + s[1..][..k - 1];
      k
  }

  /** The first piece of a split runs up to the first space, and the remaining pieces are the
      split of what follows that space. */
  lemma {:induction false} SplitFirst(s: string)
    ensures Split(s)[0] == s[..FirstSpace(s)]
    ensures FirstSpace(s) == |s| ==> Split(s) == [s]
    ensures FirstSpace(s) < |s| ==> Split(s) == [s[..FirstSpace(s)]] + Split(s[FirstSpace(s) + 1..])
  {
    var k := FirstSpace(s);
    if k == |s| {
      assert s[..k] == s;
      SplitNoSpace(s);
    } else {
      assert s == s[..k] + " " + s[k + 1..];
      SplitAfter(s[..k], s[k + 1..]);
    }
  }

  /** The credential `getUser` hands to `jwt.verify`: the second piece of the header, provided the
      header is present and its first piece is exactly `Bearer`. */
  function Credential(header: Option<string>): (r: Option<string>)
    ensures r.Some? <==> header.Some? && header.value[..FirstSpace(header.value)] == "Bearer" && |header.value| > 6
    ensures r.Some? ==> header.value[..7] == "Bearer " && r.value == header.value[7..][..FirstSpace(header.value[7..])]
  {
    match header
    case None => None
    case Some(h) =>
      var pieces := Split(h);
      SplitFirst(h);
      if h == "" || pieces[0] != "Bearer" then None
      else if |pieces| < 2 then None
      else
        SplitFirst(h[7..]);
        Some(pieces[1])
  }

  /** A header built as `Bearer <token>` yields that token when the token holds no space. */
  lemma BearerRoundTrip(token: string)
    requires ' ' !in token
    ensures Credential(Some("Bearer " + token)) == Some(token)
  {
    var h := "Bearer " + token;
    SplitJoin(["Bearer", token]);
    assert Join(["Bearer", token]) == h;
  }

  /** The scheme is matched case-sensitively: `bearer <token>` is refused. */
  lemma SchemeIsCaseSensitive(token: string)
    ensures Credential(Some("bearer " + token)) == None
  {
    var h := "bearer " + token;
    SplitFirst(h);
    assert h[6] == ' ';
    assert FirstSpace(h) <= 6;
    assert h[..FirstSpace(h)] != "Bearer";
  }

  /** The index of the first space in `s`, found by a left-to-right scan. */
  method ScanToSpace(s: string) returns (k: nat)
    ensures k == FirstSpace(s)
  {
    k := 0;
    while k < |s| && s[k] != ' '
      invariant k <= |s|
      invariant ' ' !in s[..k]
    {
      assert s[..k + 1] == s[..k] + [s[k]];
      k := k + 1;
    }
    FirstSpaceUnique(s, k);
  }

  /** The two pieces `getUser` reads, computed by scanning the header. */
  method Pieces(h: string) returns (first: string, second: Option<string>)
    ensures first == Split(h)[0]
    ensures second.Some? <==> |Split(h)| >= 2
    ensures second.Some? ==> second.value == Split(h)[1]
  {
    var i := ScanToSpace(h);
    SplitFirst(h);
    first := h[..i];
    if i == |h| {
      second := None;
    } else {
      var tail := h[i + 1..];
      var j := ScanToSpace(tail);
      SplitFirst(tail);
      second := Some(tail[..j]);
    }
  }

  /** `FirstSpace` is the only index with no space before it and a space (or the end) at it. */
  lemma {:induction false} FirstSpaceUnique(s: string, k: nat)
    requires k <= |s| && ' ' !in s[..k] && (k < |s| ==> s[k] == ' ')
    ensures k == FirstSpace(s)
  {
  }
}
