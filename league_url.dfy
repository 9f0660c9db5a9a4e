/** The league-id extraction of `FotmobAPI.get_id_from_url`: the URL is split on
    every '/' (as Python's `str.split` with an explicit separator does, keeping
    empty pieces) and the piece at index 4 is the league id. */
module LeagueUrl {
  import opened Errors

  const Separator: char := '/'
  /** Index of the league id among the '/'-separated pieces. */
  const IdPiece: nat := 4
  const InvalidUrlMessage: string := "Invalid URL format"

  /** Number of occurrences of `c` in `s`. */
  function Count(s: string, c: char): nat
  {
    if s == [] then 0 else (if s[0] == c then 1 else 0) + Count(s[1..], c)
  }

  /** The pieces joined back together with `sep` between neighbours (`sep.join`). */
  function Join(pieces: seq<string>, sep: char): string
  {
    if pieces == [] then []
    else if |pieces| == 1 then pieces[0]
    else pieces[0] + [sep] + Join(pieces[1..], sep)
  }

  /** Python's `s.split(sep)`: every occurrence of `sep` separates two pieces,
      so there is always one more piece than separators, empty pieces included. */
  function Split(s: string, sep: char): (pieces: seq<string>)
    ensures |pieces| == Count(s, sep) + 1
    ensures forall i :: 0 <= i < |pieces| ==> sep !in pieces[i]
    ensures Join(pieces, sep) == s
  {
    if s == [] then [[]]
    else
      var rest := Split(s[1..], sep);
      if s[0] == sep then
        assert s == [sep] + s[1..];
        [[]] + rest
      else
        assert s == [s[0]] + s[1..];
        assert rest == [rest[0]] + rest[1..];
        [[s[0]] + rest[0]] + rest[1..]
  }

  /** `FotmobAPI.get_id_from_url`: piece 4 of the split URL, or the ValueError
      raised when indexing the pieces fails. */
  function GetIdFromUrl(url: string): (r: Result<string>)
    ensures r.Ok? <==> Count(url, Separator) >= IdPiece
    ensures r.Err? ==> r.error == ValueError(InvalidUrlMessage)
    ensures r.Ok? ==> Separator !in r.value
  {
    var pieces := Split(url, Separator);
    if IdPiece < |pieces| then Ok(pieces[IdPiece]) else Err(ValueError(InvalidUrlMessage))
  }

  // ----- An independent reading of the same piece, by scanning -----

  /** What follows the `n`-th occurrence of `sep` in `s` (all of `s` when `n` is 0). */
  function AfterNth(s: string, sep: char, n: nat): string
    requires n <= Count(s, sep)
  {
    if n == 0 then s
    else if s[0] == sep then AfterNth(s[1..], sep, n - 1)
    else AfterNth(s[1..], sep, n)
  }

  /** The longest prefix of `s` that does not contain `sep`. */
  function UpToSeparator(s: string, sep: char): string
  {
    if s == [] || s[0] == sep then [] else [s[0]] + UpToSeparator(s[1..], sep)
  }

  /** Piece `k` of the split is the text between the `k`-th separator and the next one. */
  lemma {:induction false} SplitPiece(s: string, sep: char, k: nat)
    requires k <= Count(s, sep)
    ensures Split(s, sep)[k] == UpToSeparator(AfterNth(s, sep, k), sep)
  {
    if s == [] {
    } else if s[0] == sep {
      if k > 0 {
        SplitPiece(s[1..], sep, k - 1);
      }
    } else {
      SplitPiece(s[1..], sep, k);
    }
  }

  /** The league id is the text after the fourth '/' up to the fifth '/' or the end. */
  lemma IdIsTextAfterFourthSeparator(url: string)
    requires Count(url, Separator) >= IdPiece
    ensures GetIdFromUrl(url) == Ok(UpToSeparator(AfterNth(url, Separator, IdPiece), Separator))
  {
    SplitPiece(url, Separator, IdPiece);
  }

  /** Splitting at a separator that follows a separator-free text. */
  lemma {:induction false} SplitAfterPiece(a: string, sep: char, b: string)
    requires sep !in a
    ensures Split(a + [sep] + b, sep) == [a] + Split(b, sep)
  {
    if a == [] {
      assert a + [sep] + b == [sep] + b;
      assert ([sep] + b)[1..] == b;
    } else {
      assert (a + [sep] + b)[1..] == a[1..] + [sep] + b;
      SplitAfterPiece(a[1..], sep, b);
      assert [a[0]] + a[1..] == a;
    }
  }

  /** A separator-free text splits into itself alone. */
  lemma SplitSinglePiece(x: string, sep: char)
    requires sep !in x
    ensures Split(x, sep) == [x]
  {
    CountAbsent(x, sep);
  }

  /** `Split` undoes `Join` for separator-free pieces: together with the
      `Join(Split(s)) == s` guarantee of `Split`, the two are inverse. */
  lemma {:induction false} SplitJoin(pieces: seq<string>, sep: char)
    requires |pieces| >= 1
    requires forall i :: 0 <= i < |pieces| ==> sep !in pieces[i]
    ensures Split(Join(pieces, sep), sep) == pieces
  {
    if |pieces| == 1 {
      SplitSinglePiece(pieces[0], sep);
    } else {
      SplitAfterPiece(pieces[0], sep, Join(pieces[1..], sep));
      SplitJoin(pieces[1..], sep);
    }
  }

  /** Splitting a separator-free text followed by nothing or by a separator. */
  lemma SplitFirstPiece(x: string, sep: char, rest: string)
    requires sep !in x
    requires rest == [] || rest[0] == sep
    ensures Split(x + rest, sep)[0] == x
  {
    if rest == [] {
      assert x + rest == x;
      SplitSinglePiece(x, sep);
    } else {
      assert x + rest == x + [sep] + rest[1..];
      SplitAfterPiece(x, sep, rest[1..]);
    }
  }

  lemma {:induction false} CountAbsent(s: string, c: char)
    requires c !in s
    ensures Count(s, c) == 0
  {
    if s != [] {
      CountAbsent(s[1..], c);
    }
  }

  /** Whatever surrounds it, a separator-free text standing between the fourth and
      the fifth '/' (or the end) is the extracted league id. */
  lemma IdBetweenSeparators(p0: string, p1: string, p2: string, p3: string, id: string, rest: string)
    requires Separator !in p0 && Separator !in p1 && Separator !in p2 && Separator !in p3
    requires Separator !in id
    requires rest == [] || rest[0] == Separator
    ensures GetIdFromUrl(p0 + "/" + p1 + "/" + p2 + "/" + p3 + "/" + id + rest) == Ok(id)
  {
    var sep := [Separator];
    assert sep == "/";
    var tail := id + rest;
    var s3 := p3 + sep + tail;
    var s2 := p2 + sep + s3;
    var s1 := p1 + sep + s2;
    var url := p0 + sep + s1;
    assert url == p0 + "/" + p1 + "/" + p2 + "/" + p3 + "/" + id + rest;
    SplitAfterPiece(p3, Separator, tail);
    SplitAfterPiece(p2, Separator, s3);
    SplitAfterPiece(p1, Separator, s2);
    SplitAfterPiece(p0, Separator, s1);
    SplitFirstPiece(id, Separator, rest);
    var pieces := Split(url, Separator);
    assert pieces == [p0] + ([p1] + ([p2] + ([p3] + Split(tail, Separator))));
    assert pieces[IdPiece] == Split(tail, Separator)[0];
  }

  /** A league overview URL on any host yields the league id "47", as for
      https://www.fotmob.com/leagues/47/overview/premier-league. */
  lemma OverviewUrlExample(host: string, slug: string)
    requires Separator !in host && Separator !in slug
    ensures GetIdFromUrl("https://" + host + "/leagues/47/overview/" + slug) == Ok("47")
  {
    var rest := "/overview/" + slug;
    assert "https://" + host + "/leagues/47/overview/" + slug
      == "https:" + "/" + "" + "/" + host + "/" + "leagues" + "/" + "47" + rest;
    IdBetweenSeparators("https:", "", host, "leagues", "47", rest);
  }

  /** A bare host URL has only two '/' and is rejected. */
  lemma HostOnlyUrlExample(host: string)
    requires Separator !in host
    ensures GetIdFromUrl("https://" + host) == Err(ValueError(InvalidUrlMessage))
  {
    CountAppend("https://", host, Separator);
    CountAbsent(host, Separator);
  }

  lemma {:induction false} CountAppend(a: string, b: string, c: char)
    ensures Count(a + b, c) == Count(a, c) + Count(b, c)
  {
    if a == [] {
      assert a + b == b;
    } else {
      assert (a + b)[1..] == a[1..] + b;
      CountAppend(a[1..], b, c);
    }
  }
}
