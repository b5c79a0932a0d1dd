/** Which files the host may open: the list of permitted paths, and the check against it. */
module ClientPaths {
  /** `access` is the open mode (0 read, 1 write, 2 both); a directory permits all below it. */
  datatype Entry = Entry(name: string, access: nat, directory: bool)

  // -------------------------------------------------------------------------- the path list

  function FindSeparator(text: string): (n: nat)
    ensures n <= |text| && ':' !in text[..n] && (n < |text| ==> text[n] == ':')
  {
    if text == [] || text[0] == ':' then 0
    else
      var n := 1 + FindSeparator(text[1..]);
      assert text[..n] == [text[0]] + text[1..][..n - 1];
      n
  }

  /** What follows the first colon. */
  function After(text: string): (rest: string)
    ensures |rest| <= |text| && (text != "" ==> |rest| < |text|)
  {
    var n := FindSeparator(text);
    if n < |text| then text[n + 1..] else ""
  }

  /** The non-empty pieces between colons. */
  function Pieces(text: string): seq<string>
    decreases |text|
  {
    var n := FindSeparator(text);
    if text == "" then []
    else if n == 0 then Pieces(After(text))
    else [text[..n]] + Pieces(After(text))
  }

  /** A piece as an entry: a trailing slash marks a directory and is not part of its name. */
  function EntryOf(piece: string, access: nat, directory: bool): Entry {
    if piece != [] && piece[|piece| - 1] == '/' then Entry(piece[..|piece| - 1], access, true)
    else Entry(piece, access, directory)
  }

  /** For example "/dev/", and "/dev" as the list's flags say. */
  lemma EntryOfDirectory(access: nat)
    ensures EntryOf("/dev/", access, false) == Entry("/dev", access, true)
    ensures forall directory :: EntryOf("/dev", access, directory) == Entry("/dev", access, directory)
  {
  }

  function EntriesOf(pieces: seq<string>, access: nat, directory: bool): seq<Entry> {
    seq(|pieces|, i requires 0 <= i < |pieces| => EntryOf(pieces[i], access, directory))
  }

  /** What `Pieces` yields: nothing empty, and no colon. */
  ghost predicate ProperPieces(pieces: seq<string>) {
    forall i :: 0 <= i < |pieces| ==> pieces[i] != [] && ':' !in pieces[i]
  }

  lemma {:induction false} PiecesAreProper(text: string)
    ensures ProperPieces(Pieces(text))
    decreases |text|
  {
    if text != "" {
      PiecesAreProper(After(text));
    }
  }

  lemma {:induction false} SeparatorIs(text: string, n: nat)
    requires n <= |text| && ':' !in text[..n] && (n < |text| ==> text[n] == ':')
    ensures FindSeparator(text) == n
  {
    if n > 0 {
      assert text[0] == text[..n][0] && text[1..][..n - 1] == text[..n][1..];
      SeparatorIs(text[1..], n - 1);
    }
  }

  function Nonempty(piece: string): seq<string> {
    if piece == "" then [] else [piece]
  }

  /** A text taken apart at its first colon. */
  lemma PiecesAt(text: string, front: string, rest: string)
    requires text == front + ":" + rest && ':' !in front
    ensures Pieces(text) == Nonempty(front) + Pieces(rest)
  {
    assert text[..|front|] == front && text[|front|] == ':' && text[|front| + 1..] == rest;
    SeparatorIs(text, |front|);
  }

  lemma Regrouped(x: seq<string>, y: seq<string>, z: seq<string>)
    ensures x + (y + z) == (x + y) + z
  {
  }

  /** A colon separates, however many there are and wherever they stand. */
  lemma {:induction false} PiecesConcat(a: string, b: string)
    ensures Pieces(a + ":" + b) == Pieces(a) + Pieces(b)
    decreases |a|
  {
    var n := FindSeparator(a);
    if n < |a| {
      var front, rest := a[..n], a[n + 1..];
      assert a == front + ":" + rest && a + ":" + b == front + ":" + (rest + ":" + b);
      PiecesAt(a, front, rest);
      PiecesAt(a + ":" + b, front, rest + ":" + b);
      PiecesConcat(rest, b);
      Regrouped(Nonempty(front), Pieces(rest), Pieces(b));
    } else {
      assert a[..n] == a;
      OnePiece(a);
      PiecesAt(a + ":" + b, a, b);
    }
  }

  /** What has no colon is one piece, or none if it is empty. */
  lemma OnePiece(text: string)
    requires ':' !in text
    ensures Pieces(text) == Nonempty(text)
  {
    assert text[..|text|] == text && Pieces("") == [];
    SeparatorIs(text, |text|);
  }

  function Join(pieces: seq<string>): string {
    if pieces == [] then ""
    else if |pieces| == 1 then pieces[0]
    else pieces[0] + ":" + Join(pieces[1..])
  }

  lemma SeparatorAfter(piece: string, rest: string)
    requires ':' !in piece
    ensures FindSeparator(piece) == |piece| && FindSeparator(piece + ":" + rest) == |piece|
  {
    var text := piece + ":" + rest;
    assert text[|piece|] == ':';
    assert forall i :: 0 <= i < |piece| ==> text[i] == piece[i] && piece[i] in piece;
  }

  /** Joining pieces with single colons and splitting again gives them back. */
  lemma {:induction false} SplitAfterJoin(pieces: seq<string>)
    requires ProperPieces(pieces)
    ensures Pieces(Join(pieces)) == pieces
  {
    if pieces == [] {
      assert Pieces("") == [];
    } else {
      var piece, rest := pieces[0], pieces[1..];
      SeparatorAfter(piece, Join(rest));
      SplitAfterJoin(rest);
      assert pieces == [piece] + rest;
      if rest == [] {
        assert piece[..|piece|] == piece;
      } else {
        var text := piece + ":" + Join(rest);
        assert text[..|piece|] == piece && text[|piece| + 1..] == Join(rest);
      }
    }
  }

  // ------------------------------------------------------------------------------ the check

  /** Access rights as the code counts them: bit 0 to read, bit 1 to write. */
  predicate Covers(granted: nat, requested: nat) {
    var g, r := granted % 4 + 1, requested % 4 + 1;
    r % 2 <= g % 2 && r / 2 % 2 <= g / 2 % 2 && r / 4 <= g / 4
  }

  /** The nine pairs of read, write and both, and the mode 3, which is none of them. */
  lemma CoversPairs()
    ensures Covers(0, 0) && !Covers(0, 1) && !Covers(0, 2)
    ensures !Covers(1, 0) && Covers(1, 1) && !Covers(1, 2)
    ensures Covers(2, 0) && Covers(2, 1) && Covers(2, 2)
    ensures Covers(3, 3) && !Covers(3, 0) && !Covers(3, 1) && !Covers(3, 2)
    ensures !Covers(0, 3) && !Covers(1, 3) && !Covers(2, 3)
  {
  }

  /** Only the last two bits of a mode count. */
  lemma CoversByMode(granted: nat, requested: nat)
    ensures Covers(granted, requested) <==> Covers(granted % 4, requested % 4)
  {
    assert granted % 4 % 4 == granted % 4 && requested % 4 % 4 == requested % 4;
  }

  predicate StartsWith(path: string, e: Entry) {
    |e.name| <= |path| && path[..|e.name|] == e.name
  }

  /** The path is the entry itself, or lies below it if it is a directory. */
  predicate Names(path: string, e: Entry) {
    StartsWith(path, e)
    && (|path| == |e.name| || (e.directory && path[|e.name|] == '/'))
  }

  /** What is compared: a trailing slash does not count towards the length. */
  function Measured(path: string): nat {
    if path != [] && path[|path| - 1] == '/' then |path| - 1 else |path|
  }

  predicate Considered(path: string, e: Entry) {
    |e.name| <= Measured(path) && StartsWith(path, e)
  }

  /** Entry `i` names the path, and it and all before it that are considered grant the access. */
  ghost predicate Decides(entries: seq<Entry>, path: string, access: nat, i: nat) {
    i < |entries| && Considered(path, entries[i]) && Names(path, entries[i])
    && forall k :: 0 <= k <= i && Considered(path, entries[k]) ==> Covers(entries[k].access, access)
  }

  /** Alone in the list, a directory permits itself, with or without a trailing slash, and what lies
      below it. */
  lemma OneDirectory(name: string, granted: nat, path: string, access: nat)
    requires path != "" && (name != "" ==> name[|name| - 1] != '/')
    ensures (exists i :: Decides([Entry(name, granted, true)], path, access, i))
            <==> Covers(granted, access) && (path == name || name + "/" <= path)
  {
    var e := Entry(name, granted, true);
    if name + "/" <= path {
      assert path[|name|] == '/' && path[..|name|] == name;
    }
    assert Decides([e], path, access, 0) <==> Covers(granted, access) && (path == name || name + "/" <= path);
  }

  /** A file permits only itself. */
  lemma OneFile(name: string, granted: nat, path: string, access: nat)
    requires path != "" && (name != "" ==> name[|name| - 1] != '/')
    ensures (exists i :: Decides([Entry(name, granted, false)], path, access, i))
            <==> Covers(granted, access) && path == name
  {
    var e := Entry(name, granted, false);
    assert Decides([e], path, access, 0) <==> Covers(granted, access) && path == name;
  }

  function Listed(text: string, access: nat, directory: bool): seq<Entry> {
    EntriesOf(Pieces(text), access, directory)
  }

  lemma ListedFirst(piece: string, pieces: seq<string>, access: nat, directory: bool)
    ensures EntriesOf([piece] + pieces, access, directory)
         == [EntryOf(piece, access, directory)] + EntriesOf(pieces, access, directory)
  {
  }

  lemma Regroup(before: seq<Entry>, e: Entry, rest: seq<Entry>)
    ensures before + [e] + rest == before + ([e] + rest)
  {
  }

  lemma ListedNext(entries: seq<Entry>, text: string, access: nat, directory: bool)
    requires FindSeparator(text) > 0
    ensures entries + [EntryOf(text[..FindSeparator(text)], access, directory)]
              + Listed(After(text), access, directory)
         == entries + Listed(text, access, directory)
  {
    var piece := text[..FindSeparator(text)];
    ListedFirst(piece, Pieces(After(text)), access, directory);
    Regroup(entries, EntryOf(piece, access, directory), Listed(After(text), access, directory));
  }

  lemma ListedSkip(text: string, access: nat, directory: bool)
    requires FindSeparator(text) == 0
    ensures Listed(text, access, directory) == Listed(After(text), access, directory)
  {
  }

  method SeekSeparator(text: string) returns (n: nat)
    ensures n == FindSeparator(text)
  {
    n := 0;
    while n < |text|
      invariant n <= |text| && ':' !in text[..n]
    {
      if text[n] == ':' {
        FirstSeparator(text, n);
        return;
      }
      n := n + 1;
    }
    FirstSeparator(text, n);
  }

  lemma FirstSeparator(text: string, n: nat)
    requires n <= |text| && ':' !in text[..n] && (n < |text| ==> text[n] == ':')
    ensures n == FindSeparator(text)
  {
    var m := FindSeparator(text);
    assert forall i :: 0 <= i < n ==> text[..n][i] == text[i];
    assert forall i :: 0 <= i < m ==> text[..m][i] == text[i];
  }

  class Paths {
    var entries: seq<Entry>

    constructor ()
      ensures entries == []
    {
      entries := [];
    }

    method AddPath(name: string, access: nat, directory: bool)
      modifies this
      ensures entries == old(entries) + [Entry(name, access, directory)]
    {
      entries := entries + [Entry(name, access, directory)];
    }

    /** Adds the piece that ends at the separator. */
    method AddPiece(text: string, next: nat, access: nat, directory: bool)
      requires 0 < next == FindSeparator(text)
      modifies this
      ensures entries + Listed(After(text), access, directory)
           == old(entries) + Listed(text, access, directory)
    {
      ListedNext(entries, text, access, directory);
      ghost var piece := text[..next];
      assert piece[next - 1] == text[next - 1] && piece[..next - 1] == text[..next - 1];
      if text[next - 1] == '/' {
        AddPath(text[..next - 1], access, true);
      } else {
        AddPath(text[..next], access, directory);
      }
    }

    /** Every non-empty piece of the colon-separated list becomes an entry, in order. */
    method AddList(list: string, access: nat, directory: bool)
      modifies this
      ensures entries == old(entries) + EntriesOf(Pieces(list), access, directory)
    {
      var text := list;
      while true
        invariant entries + Listed(text, access, directory)
               == old(entries) + Listed(list, access, directory)
        decreases |text|
      {
        var next := SeekSeparator(text);
        if next == 0 {
          if next < |text| {
            ListedSkip(text, access, directory);
            text := After(text);
            continue;
          }
          break;
        }
        AddPiece(text, next, access, directory);
        var ended := next == |text|;
        text := After(text);
        if ended {
          break;
        }
      }
      assert Listed(text, access, directory) == [];
    }

    /** A path is permitted exactly if some entry names it and every entry up to that one whose
        name the path merely starts with grants the access: the first such entry that does not
        grant it decides, even when it names another file. */
    method ValidatePath(path: string, access: nat) returns (ok: bool)
      ensures ok <==> path != "" && exists i :: Decides(entries, path, access, i)
    {
      if |path| == 0 {
        return false;
      }
      var len := if path[|path| - 1] == '/' then |path| - 1 else |path|;
      var i := 0;
      while i < |entries|
        invariant 0 <= i <= |entries|
        invariant forall k :: 0 <= k < i && Considered(path, entries[k]) ==>
                    Covers(entries[k].access, access) && !Names(path, entries[k])
      {
        var e := entries[i];
        if len >= |e.name| && e.name == path[..|e.name|] {
          assert Considered(path, e);
          if !Covers(e.access, access) {
            return false;
          }
          var atEnd := |e.name| == |path|;
          if e.directory {
            if atEnd || path[|e.name|] == '/' {
              assert Decides(entries, path, access, i);
              return true;
            }
          } else {
            if atEnd {
              assert Decides(entries, path, access, i);
              return true;
            }
          }
        }
        i := i + 1;
      }
      ok := false;
    }
  }

  /** So the order of registration matters: here the second entry names the path and grants the
      access, but the first one, which names another file, comes before it. */
  lemma ShorterNameShadows(access: nat)
    requires access == 2
    ensures var list := [Entry("/ab", 0, false), Entry("/abc", 2, false)];
            Names("/abc", list[1]) && Covers(list[1].access, access)
            && !Names("/abc", list[0]) && !exists i :: Decides(list, "/abc", access, i)
  {
    var list := [Entry("/ab", 0, false), Entry("/abc", 2, false)];
    assert "/abc"[..3] == "/ab" && "/abc"[..4] == "/abc";
    assert Considered("/abc", list[0]) && !Covers(list[0].access, access);
  }
}
