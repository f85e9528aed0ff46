/** `recent_item`: a workspace URL becomes a named item, its name being the
    last `/`-separated piece of the URL. */
module RecentItems {
  import opened Wrappers
  import Paths

  /** `RecentFileSystemItem`: a display name and the URL it came from. */
  datatype RecentFileSystemItem = RecentFileSystemItem(name: string, path: string)

  /** `s.split(sep)`: the pieces between separators. Like Rust's `split`, it
      yields one piece more than there are separators, so never none. */
  function Split(s: string, sep: char): (pieces: seq<string>)
    ensures |pieces| >= 1
    ensures forall k :: 0 <= k < |pieces| ==> sep !in pieces[k]
    decreases |s|
  {
    if s == [] then [""]
    else if s[0] == sep then [""] + Split(s[1..], sep)
    else
      var rest := Split(s[1..], sep);
      [[s[0]] + rest[0]] + rest[1..]
  }

  /** Putting the separators back between the pieces. */
  function JoinPieces(pieces: seq<string>, sep: char): string
  {
    if pieces == [] then ""
    else if |pieces| == 1 then pieces[0]
    else pieces[0] + [sep] + JoinPieces(pieces[1..], sep)
  }

  /** The iterator's `last()`. */
  function Last<T>(xs: seq<T>): (r: Option<T>)
    ensures r.None? <==> xs == []
    ensures r.Some? ==> r.value == xs[|xs| - 1]
  {
    if xs == [] then None else Some(xs[|xs| - 1])
  }

  /** `name` is what follows the last `sep` of `s`: a suffix of `s` free of
      `sep` that is either all of `s` or preceded by a `sep`. */
  predicate IsLastSegment(name: string, s: string, sep: char)
  {
    && |name| <= |s|
    && s[|s| - |name|..] == name
    && sep !in name
    && (|name| == |s| || s[|s| - |name| - 1] == sep)
  }

  /** `recent_item`. */
  function RecentItem(url: string): (r: Result<RecentFileSystemItem, string>)
    ensures r.Ok? && r.value.path == url
  {
    match Last(Split(url, Paths.SEPARATOR))
    case Some(name) => Ok(RecentFileSystemItem(name, url))
    case None => Err("Failed to extract workspace name from URL " + url)
  }

  /** Splitting and joining again gives back the string. */
  lemma {:induction false} JoinSplit(s: string, sep: char)
    ensures JoinPieces(Split(s, sep), sep) == s
    decreases |s|
  {
    if s != [] {
      JoinSplit(s[1..], sep);
      var rest := Split(s[1..], sep);
      if s[0] == sep {
        assert ([""] + rest)[1..] == rest;
      } else {
        assert ([[s[0]] + rest[0]] + rest[1..])[1..] == rest[1..];
        if |rest| > 1 {
          assert JoinPieces(rest, sep) == rest[0] + [sep] + JoinPieces(rest[1..], sep);
        }
      }
    }
  }

  lemma {:induction false} SplitWithoutSeparator(s: string, sep: char)
    requires sep !in s
    ensures Split(s, sep) == [s]
    decreases |s|
  {
    if s != [] {
      assert sep !in s[1..] by { assert forall k :: 0 <= k < |s[1..]| ==> s[1..][k] == s[k + 1]; }
      SplitWithoutSeparator(s[1..], sep);
      assert [s[0]] + s[1..] == s;
    }
  }

  lemma {:induction false} SplitAfterPiece(piece: string, sep: char, rest: string)
    requires sep !in piece
    ensures Split(piece + [sep] + rest, sep) == [piece] + Split(rest, sep)
    decreases |piece|
  {
    var s := piece + [sep] + rest;
    if piece == [] {
      assert s == [sep] + rest && s[1..] == rest;
    } else {
      assert s[1..] == piece[1..] + [sep] + rest;
      assert sep !in piece[1..] by { assert forall k :: 0 <= k < |piece[1..]| ==> piece[1..][k] == piece[k + 1]; }
      SplitAfterPiece(piece[1..], sep, rest);
      assert [piece[0]] + piece[1..] == piece;
    }
  }

  /** Joining pieces that hold no separator and splitting again gives back
      the pieces. */
  lemma {:induction false} SplitJoin(pieces: seq<string>, sep: char)
    requires |pieces| >= 1
    requires forall k :: 0 <= k < |pieces| ==> sep !in pieces[k]
    ensures Split(JoinPieces(pieces, sep), sep) == pieces
  {
    if |pieces| == 1 {
      SplitWithoutSeparator(pieces[0], sep);
    } else {
      SplitJoin(pieces[1..], sep);
      SplitAfterPiece(pieces[0], sep, JoinPieces(pieces[1..], sep));
      assert [pieces[0]] + pieces[1..] == pieces;
    }
  }

  /** The last piece of `split` is exactly the last segment. */
  lemma {:induction false} LastPieceIsLastSegment(s: string, sep: char)
    ensures IsLastSegment(Split(s, sep)[|Split(s, sep)| - 1], s, sep)
    decreases |s|
  {
    if s != [] {
      var rest := Split(s[1..], sep);
      LastPieceIsLastSegment(s[1..], sep);
      var name := rest[|rest| - 1];
      JoinSplit(s[1..], sep);
      if s[0] == sep || |rest| > 1 {
        assert Split(s, sep)[|Split(s, sep)| - 1] == name;
        assert s[|s| - |name|..] == s[1..][|s[1..]| - |name|..];
        if s[0] != sep {
          assert s[1..] == rest[0] + [sep] + JoinPieces(rest[1..], sep);
          assert s[1..][|rest[0]|] == sep;
          assert |name| < |s[1..]|;
        }
      } else {
        assert rest == [s[1..]];
        assert [s[0]] + s[1..] == s;
        assert Split(s, sep) == [s];
      }
    }
  }

  /** The item's name is the last segment of its URL. */
  lemma RecentItemIsLastSegment(url: string)
    ensures IsLastSegment(RecentItem(url).value.name, url, Paths.SEPARATOR)
  {
    LastPieceIsLastSegment(url, Paths.SEPARATOR);
  }

  /** The last segment is uniquely determined, so the name is a function of
      the URL alone. */
  lemma LastSegmentUnique(a: string, b: string, s: string, sep: char)
    requires IsLastSegment(a, s, sep) && IsLastSegment(b, s, sep)
    ensures a == b
  {
  }

  /** The error branch of `recent_item` is never taken: every URL yields an
      item whose name follows the last slash. */
  lemma RecentItemName(url: string, name: string)
    requires IsLastSegment(name, url, Paths.SEPARATOR)
    ensures RecentItem(url) == Ok(RecentFileSystemItem(name, url))
  {
    RecentItemIsLastSegment(url);
    LastSegmentUnique(name, RecentItem(url).value.name, url, Paths.SEPARATOR);
  }

  /** A URL without a slash names itself. */
  lemma NameWithoutSlash(url: string)
    requires Paths.SEPARATOR !in url
    ensures RecentItem(url) == Ok(RecentFileSystemItem(url, url))
  {
    RecentItemName(url, url);
  }

  /** A URL ending in a slash gives an item with an empty name; it is kept,
      not dropped. */
  lemma TrailingSlashGivesEmptyName(url: string)
    requires url != [] && url[|url| - 1] == Paths.SEPARATOR
    ensures RecentItem(url) == Ok(RecentFileSystemItem("", url))
  {
    RecentItemName(url, "");
  }
}
