/**
 * The reaction string of chat-app/server/database.js: `getMessages` gets a
 * message's reactions from SQLite as `GROUP_CONCAT(username || ':' || reaction)`
 * and parses that `"u:r,u:r"` text back into a username → reaction map.
 */
module ReactionCodec {
  import opened Common
  import opened Strings

  /** One `reactions` row of a message, as the query sees it. */
  datatype Entry = Entry(username: string, reaction: string)

  /** The `username || ':' || reaction` text of each row. */
  function Items(entries: seq<Entry>): (items: seq<string>)
    ensures |items| == |entries|
    ensures forall i :: 0 <= i < |entries| ==> items[i] == entries[i].username + ":" + entries[i].reaction
  {
    if entries == [] then []
    else Items(entries[..|entries| - 1]) + [entries[|entries| - 1].username + ":" + entries[|entries| - 1].reaction]
  }

  /** `GROUP_CONCAT` of the items with the default `','` separator; SQL NULL when there are no rows. */
  function GroupConcat(entries: seq<Entry>): (data: Option<string>)
    ensures data.None? <==> entries == []
  {
    if entries == [] then None else Some(Join(Items(entries), ','))
  }

  /** A token `item.split(':')` can return as one of its first two pieces when they are kept: non-empty and colon-free. */
  predicate Piece(t: string)
  {
    t != "" && ':' !in t
  }

  /** `item` begins with `u`, a colon and `r`, and goes on, if at all, with another colon. */
  predicate Leads(item: string, u: string, r: string)
  {
    |u| + 1 + |r| <= |item| && item[..|u|] == u && item[|u|] == ':' && item[|u| + 1..|u| + 1 + |r|] == r
    && (|item| == |u| + 1 + |r| || item[|u| + 1 + |r|] == ':')
  }

  /** The first two pieces of a split with at least two lead the string. */
  lemma SplitLeads(item: string)
    requires |Split(item, ':')| >= 2
    ensures Leads(item, Split(item, ':')[0], Split(item, ':')[1])
  {
    var pieces := Split(item, ':');
    JoinSplit(item, ':');
    var tail := Join(pieces[1..], ':');
    assert item == pieces[0] + [':'] + tail;
    if |pieces| > 2 {
      assert pieces[1..][1..] == pieces[2..];
      assert tail == pieces[1] + [':'] + Join(pieces[2..], ':');
    } else {
      assert tail == pieces[1];
    }
  }

  /** A string that `u:r` leads is `u`, the colon, `r` and the rest. */
  lemma LeadsShape(item: string, u: string, r: string)
    requires Leads(item, u, r)
    ensures item == u + [':'] + (r + item[|u| + 1 + |r|..])
  {
    var n := |u| + 1 + |r|;
    assert item == item[..|u|] + [item[|u|]] + item[|u| + 1..n] + item[n..];
  }

  /** Whatever pieces lead the string are the first two pieces of its split. */
  lemma LeadsSplit(item: string, u: string, r: string)
    requires Piece(u) && Piece(r) && Leads(item, u, r)
    ensures |Split(item, ':')| >= 2 && Split(item, ':')[0] == u && Split(item, ':')[1] == r
  {
    var rest := item[|u| + 1 + |r|..];
    LeadsShape(item, u, r);
    SplitAfterPiece(u, r + rest, ':');
    if rest == [] {
      assert r + rest == r;
      SplitNoSeparator(r, ':');
    } else {
      assert r + rest == r + [':'] + rest[1..];
      SplitAfterPiece(r, rest[1..], ':');
    }
  }

  lemma LeadsDetermine(item: string)
    ensures forall u, r :: Piece(u) && Piece(r) && Leads(item, u, r) ==>
      |Split(item, ':')| >= 2 && Split(item, ':')[0] == u && Split(item, ':')[1] == r
  {
    forall u, r | Piece(u) && Piece(r) && Leads(item, u, r)
      ensures |Split(item, ':')| >= 2 && Split(item, ':')[0] == u && Split(item, ':')[1] == r
    {
      LeadsSplit(item, u, r);
    }
  }

  /**
   * `const [username, reaction] = item.split(':')`, kept only when both are
   * non-empty: an item parses to `(u, r)` exactly when it begins `u:r`, with
   * `u` and `r` non-empty and colon-free, and then has nothing more or
   * another colon. Pieces after the second are ignored.
   */
  function ParseItem(item: string): (e: Option<Entry>)
    ensures e.Some? ==> Piece(e.value.username) && Piece(e.value.reaction) && Leads(item, e.value.username, e.value.reaction)
    ensures forall u, r :: Piece(u) && Piece(r) && Leads(item, u, r) ==> e == Some(Entry(u, r))
  {
    LeadsDetermine(item);
    var pieces := Split(item, ':');
    if pieces[0] != "" && |pieces| >= 2 && pieces[1] != "" then
      SplitLeads(item);
      Some(Entry(pieces[0], pieces[1]))
    else
      None
  }

  /** The map the `forEach` over `items` builds: left to right, a later username winning. */
  function DecodeItems(items: seq<string>): map<string, string>
  {
    if items == [] then map[]
    else
      var m := DecodeItems(items[..|items| - 1]);
      match ParseItem(items[|items| - 1])
      case None => m
      case Some(e) => m[e.username := e.reaction]
  }

  /** The reaction map `getMessages` builds from `reactions_data`. */
  function Decode(data: Option<string>): map<string, string>
  {
    if data.None? || data.value == "" then map[] else DecodeItems(Split(data.value, ','))
  }

  /** The `reactions_data` parsing loop of `getMessages`. */
  method DecodeReactions(data: Option<string>) returns (reactions: map<string, string>)
    ensures reactions == Decode(data)
  {
    reactions := map[];
    if data.Some? && data.value != "" {
      var items := Split(data.value, ',');
      var i := 0;
      while i < |items|
        invariant 0 <= i <= |items|
        invariant reactions == DecodeItems(items[..i])
      {
        var pieces := Split(items[i], ':');
        var username := pieces[0];
        if username != "" && |pieces| >= 2 && pieces[1] != "" {
          reactions := reactions[username := pieces[1]];
        }
        assert items[..i + 1][..i] == items[..i];
        i := i + 1;
      }
      assert items[..i] == items;
    }
  }

  /** Rows folded into a map in order, a later row for the same username winning (`getReactions`). */
  function EntriesToMap(entries: seq<Entry>): map<string, string>
  {
    if entries == [] then map[]
    else
      var e := entries[|entries| - 1];
      EntriesToMap(entries[..|entries| - 1])[e.username := e.reaction]
  }

  /** A token the text encoding carries intact: non-empty and free of both separators. */
  predicate Clean(t: string)
  {
    t != "" && ',' !in t && ':' !in t
  }

  predicate AllClean(entries: seq<Entry>)
  {
    forall i :: 0 <= i < |entries| ==> Clean(entries[i].username) && Clean(entries[i].reaction)
  }

  /** A clean `u:r` item parses back to its row. */
  lemma ParseCleanItem(e: Entry)
    requires Clean(e.username) && Clean(e.reaction)
    ensures ParseItem(e.username + ":" + e.reaction) == Some(e)
  {
    SplitAfterPiece(e.username, e.reaction, ':');
    SplitNoSeparator(e.reaction, ':');
    assert e.username + ":" + e.reaction == e.username + [':'] + e.reaction;
  }

  lemma {:induction false} DecodeCleanItems(entries: seq<Entry>)
    requires AllClean(entries)
    ensures DecodeItems(Items(entries)) == EntriesToMap(entries)
  {
    if entries != [] {
      var n := |entries|;
      var init := entries[..n - 1];
      assert AllClean(init);
      DecodeCleanItems(init);
      assert Items(entries)[..n - 1] == Items(init);
      ParseCleanItem(entries[n - 1]);
    }
  }

  /**
   * Round trip: when every username and reaction is non-empty and contains
   * neither `','` nor `':'`, decoding the `GROUP_CONCAT` text of a message's
   * rows gives the map the rows stand for.
   */
  lemma RoundTrip(entries: seq<Entry>)
    requires AllClean(entries)
    ensures Decode(GroupConcat(entries)) == EntriesToMap(entries)
  {
    if entries != [] {
      var items := Items(entries);
      forall i | 0 <= i < |items|
        ensures ',' !in items[i]
      {
        assert items[i] == entries[i].username + ":" + entries[i].reaction;
      }
      SplitJoin(items, ',');
      assert Join(items, ',') != "" by {
        if |items| == 1 {
          assert Join(items, ',') == items[0];
        }
        assert |items[0]| > 0;
      }
      DecodeCleanItems(entries);
    }
  }

  /** No username appears in two entries. */
  predicate DistinctUsers(entries: seq<Entry>)
  {
    forall i, j :: 0 <= i < j < |entries| ==> entries[i].username != entries[j].username
  }

  /** With distinct usernames (one row per username), the map has exactly the rows' pairs. */
  lemma {:induction false} EntriesToMapOfDistinct(entries: seq<Entry>)
    requires DistinctUsers(entries)
    ensures forall i :: 0 <= i < |entries| ==>
      entries[i].username in EntriesToMap(entries) && EntriesToMap(entries)[entries[i].username] == entries[i].reaction
    ensures forall u :: u in EntriesToMap(entries) ==> exists i :: 0 <= i < |entries| && entries[i].username == u
  {
    if entries != [] {
      var n := |entries|;
      var init, last := entries[..n - 1], entries[n - 1];
      assert forall i :: 0 <= i < n - 1 ==> init[i] == entries[i];
      EntriesToMapOfDistinct(init);
      var m := EntriesToMap(init)[last.username := last.reaction];
      assert EntriesToMap(entries) == m;
      forall i | 0 <= i < n
        ensures entries[i].username in m && m[entries[i].username] == entries[i].reaction
      {
        if i < n - 1 {
          assert entries[i].username != last.username;
        }
      }
      forall u | u in m
        ensures exists i :: 0 <= i < n && entries[i].username == u
      {
        if u == last.username {
          assert entries[n - 1].username == u;
        } else {
          var i :| 0 <= i < n - 1 && init[i].username == u;
          assert entries[i].username == u;
        }
      }
    }
  }

  /** A null or empty `reactions_data` decodes to no reactions. */
  lemma DecodeNothing()
    ensures Decode(None) == map[] && Decode(Some("")) == map[]
  {
  }

  /** A message with one reaction row decodes that row's item alone. */
  lemma DecodeSingleRow(e: Entry)
    ensures Decode(GroupConcat([e])) == DecodeItems(Split(e.username + ":" + e.reaction, ','))
  {
    assert Items([e]) == [e.username + ":" + e.reaction];
  }

  /** One item decodes to its parsed pair, or to nothing when it does not parse. */
  lemma DecodeOneItem(item: string)
    ensures DecodeItems([item]) == if ParseItem(item).Some? then map[ParseItem(item).value.username := ParseItem(item).value.reaction] else map[]
  {
    assert [item][..0] == [];
  }

  /** An item without a colon does not parse. */
  lemma ParseBareItem(item: string)
    requires ':' !in item
    ensures ParseItem(item).None?
  {
    SplitNoSeparator(item, ':');
  }

  /** Of an item with two colons, the first two pieces are kept and the third is ignored. */
  lemma ParseThreePieces(a: string, b: string, x: string)
    requires Clean(a) && Clean(b)
    ensures ParseItem(a + ":" + b + ":" + x) == Some(Entry(a, b))
  {
    assert a + ":" + b + ":" + x == a + [':'] + (b + [':'] + x);
    SplitAfterPiece(a, b + [':'] + x, ':');
    SplitAfterPiece(b, x, ':');
  }

  /**
   * The round trip needs clean tokens: a username containing `':'` comes
   * back cut at the colon, with the rest of the name as its "reaction".
   */
  lemma ColonInUsernameIsMisread(a: string, b: string, x: string)
    requires Clean(a) && Clean(b) && Clean(x)
    ensures Decode(GroupConcat([Entry(a + ":" + b, x)])) == map[a := b]
  {
    var item := a + ":" + b + ":" + x;
    DecodeSingleRow(Entry(a + ":" + b, x));
    assert ',' !in item;
    SplitNoSeparator(item, ',');
    DecodeOneItem(item);
    ParseThreePieces(a, b, x);
  }

  /** Text with a single comma splits at it. */
  lemma CommaSplit(first: string, second: string)
    requires ',' !in first && ',' !in second
    ensures Split(first + [','] + second, ',') == [first, second]
  {
    SplitAfterPiece(first, second, ',');
    SplitNoSeparator(second, ',');
  }

  /** The text of a row whose username holds a comma is split at that comma into two items. */
  lemma CommaRowItems(a: string, b: string, x: string)
    requires ',' !in a && ',' !in b && ',' !in x
    ensures Decode(GroupConcat([Entry(a + "," + b, x)])) == DecodeItems([a, b + ":" + x])
  {
    var rest := b + ":" + x;
    assert ',' !in rest;
    assert (a + "," + b) + ":" + x == a + [','] + rest;
    CommaSplit(a, rest);
    DecodeSingleRow(Entry(a + "," + b, x));
  }

  /** Two items of which only the second parses decode to its pair alone. */
  lemma OnlySecondParses(first: string, second: string, e: Entry)
    requires ParseItem(first).None? && ParseItem(second) == Some(e)
    ensures DecodeItems([first, second]) == map[e.username := e.reaction]
  {
    TwoItems(first, second);
    DecodeOneItem(first);
  }

  /** Likewise a username containing `','` is split into two items, and only the second parses. */
  lemma CommaInUsernameIsMisread(a: string, b: string, x: string)
    requires Clean(a) && Clean(b) && Clean(x)
    ensures Decode(GroupConcat([Entry(a + "," + b, x)])) == map[b := x]
  {
    CommaRowItems(a, b, x);
    ParseBareItem(a);
    ParseCleanItem(Entry(b, x));
    OnlySecondParses(a, b + ":" + x, Entry(b, x));
  }

  /** Two items decode left to right. */
  lemma TwoItems(first: string, second: string)
    ensures DecodeItems([first, second]) == match ParseItem(second)
      case None => DecodeItems([first])
      case Some(e) => DecodeItems([first])[e.username := e.reaction]
  {
    assert [first, second][..1] == [first];
  }
}
