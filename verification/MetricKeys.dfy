/** The string keys under which metrics are stored, and when a key can be read back. */
module MetricKeys {

  type Tags = map<string, string>

  // ------------------------------------------------------------------
  // Byte order on strings, and sorting
  // ------------------------------------------------------------------

  predicate StrLe(a: string, b: string) {
    a == "" || (b != "" && (a[0] < b[0] || (a[0] == b[0] && StrLe(a[1..], b[1..]))))
  }

  lemma {:induction false} StrLeTotal(a: string, b: string)
    ensures StrLe(a, b) || StrLe(b, a)
  {
    if a == "" || b == "" || a[0] != b[0] {
    } else {
      StrLeTotal(a[1..], b[1..]);
    }
  }

  lemma {:induction false} StrLeAntisymmetric(a: string, b: string)
    requires StrLe(a, b) && StrLe(b, a)
    ensures a == b
  {
    if a == "" || b == "" {
    } else {
      StrLeAntisymmetric(a[1..], b[1..]);
      assert a == [a[0]] + a[1..] && b == [b[0]] + b[1..];
    }
  }

  lemma {:induction false} StrLeTransitive(a: string, b: string, c: string)
    requires StrLe(a, b) && StrLe(b, c)
    ensures StrLe(a, c)
  {
    if a == "" || a[0] != b[0] || b[0] != c[0] {
    } else {
      StrLeTransitive(a[1..], b[1..], c[1..]);
    }
  }

  /** In byte order: a proper prefix comes first, and otherwise the smaller byte where they first differ. */
  ghost predicate Before(a: string, b: string) {
    a < b || exists i :: DifferFirstAt(a, b, i)
  }

  ghost predicate DifferFirstAt(a: string, b: string, i: nat) {
    i < |a| && i < |b| && a[..i] == b[..i] && a[i] < b[i]
  }

  lemma DifferLater(a: string, b: string, i: nat)
    requires a != "" && b != "" && a[0] == b[0]
    ensures DifferFirstAt(a[1..], b[1..], i) <==> DifferFirstAt(a, b, i + 1)
  {
    if i + 1 < |a| && i + 1 < |b| {
      assert a[..i + 1] == [a[0]] + a[1..][..i] && b[..i + 1] == [b[0]] + b[1..][..i];
      assert a[..i + 1][1..] == a[1..][..i] && b[..i + 1][1..] == b[1..][..i];
    }
  }

  lemma BeforeOfTails(a: string, b: string)
    requires a != "" && b != "" && a[0] == b[0]
    ensures Before(a, b) <==> Before(a[1..], b[1..])
  {
    assert a == [a[0]] + a[1..] && b == [b[0]] + b[1..];
    assert a < b <==> a[1..] < b[1..];
    forall i: nat ensures DifferFirstAt(a[1..], b[1..], i) <==> DifferFirstAt(a, b, i + 1) {
      DifferLater(a, b, i);
    }
    if i: nat :| DifferFirstAt(a, b, i) {
      assert i > 0 && DifferFirstAt(a[1..], b[1..], i - 1);
    }
  }

  /** The comparison, byte by byte, is byte order. */
  lemma {:induction false} StrLeIsByteOrder(a: string, b: string)
    ensures StrLe(a, b) <==> a == b || Before(a, b)
  {
    if a == "" || b == "" {
    } else if a[0] == b[0] {
      StrLeIsByteOrder(a[1..], b[1..]);
      BeforeOfTails(a, b);
      assert a == [a[0]] + a[1..] && b == [b[0]] + b[1..];
    } else if a[0] < b[0] {
      assert DifferFirstAt(a, b, 0);
    } else {
      forall i: nat ensures !DifferFirstAt(a, b, i) {
        assert 0 < i <= |a| && i <= |b| ==> a[..i][0] == a[0] && b[..i][0] == b[0];
      }
    }
  }

  /** In byte order, without repetition. */
  ghost predicate Increasing(s: seq<string>) {
    forall i, j | 0 <= i < j < |s| :: Before(s[i], s[j])
  }

  ghost predicate Ascending(s: seq<string>) {
    forall i, j | 0 <= i < j < |s| :: StrLe(s[i], s[j]) && s[i] != s[j]
  }

  lemma AscendingIsIncreasing(s: seq<string>)
    ensures Ascending(s) <==> Increasing(s)
  {
    forall i, j | 0 <= i < j < |s|
      ensures Before(s[i], s[j]) <==> StrLe(s[i], s[j]) && s[i] != s[j]
    {
      StrLeIsByteOrder(s[i], s[j]);
    }
  }

  ghost predicate SameElements(s: seq<string>, t: seq<string>) {
    forall x :: x in s <==> x in t
  }

  function Insert(k: string, s: seq<string>): seq<string> {
    if s == [] then [k]
    else if StrLe(k, s[0]) then [k] + s
    else [s[0]] + Insert(k, s[1..])
  }

  function SortStrings(s: seq<string>): seq<string> {
    if s == [] then [] else Insert(s[0], SortStrings(s[1..]))
  }

  ghost predicate Distinct(s: seq<string>) {
    forall i, j | 0 <= i < j < |s| :: s[i] != s[j]
  }

  lemma {:induction false} InsertElements(k: string, s: seq<string>)
    ensures forall x :: x in Insert(k, s) <==> x == k || x in s
  {
    if s == [] || StrLe(k, s[0]) {
    } else {
      InsertElements(k, s[1..]);
      assert s == [s[0]] + s[1..];
    }
  }

  lemma {:induction false} InsertAscending(k: string, s: seq<string>)
    requires Ascending(s) && k !in s
    ensures Ascending(Insert(k, s))
  {
    if s == [] {
    } else {
      if StrLe(k, s[0]) {
        forall j | 0 <= j < |s| ensures StrLe(k, s[j]) && k != s[j] {
          if j > 0 {
            StrLeTransitive(k, s[0], s[j]);
          }
        }
      } else {
        InsertAscending(k, s[1..]);
        InsertElements(k, s[1..]);
        StrLeTotal(k, s[0]);
        var rest := Insert(k, s[1..]);
        forall j | 0 <= j < |rest| ensures StrLe(s[0], rest[j]) && s[0] != rest[j] {
          assert rest[j] in rest;
        }
      }
    }
  }

  lemma {:induction false} SortAscends(s: seq<string>)
    requires Distinct(s)
    ensures Ascending(SortStrings(s)) && SameElements(SortStrings(s), s)
  {
    if s == [] {
    } else {
      SortAscends(s[1..]);
      InsertElements(s[0], SortStrings(s[1..]));
      assert s == [s[0]] + s[1..];
      assert s[0] !in s[1..];
      InsertAscending(s[0], SortStrings(s[1..]));
    }
  }

  /** Sorting gives the same strings, in byte order. */
  lemma SortSorts(s: seq<string>)
    requires Distinct(s)
    ensures Increasing(SortStrings(s)) && SameElements(SortStrings(s), s)
  {
    SortAscends(s);
    AscendingIsIncreasing(SortStrings(s));
  }

  lemma {:induction false} AscentIsUnique(s: seq<string>, t: seq<string>)
    requires Ascending(s) && Ascending(t) && SameElements(s, t)
    ensures s == t
  {
    assert s != [] ==> s[0] in t;
    assert t != [] ==> t[0] in s;
    if s == [] || t == [] {
    } else {
      var i :| 0 <= i < |t| && t[i] == s[0];
      var j :| 0 <= j < |s| && s[j] == t[0];
      if s[0] != t[0] {
        StrLeAntisymmetric(s[0], t[0]);
      }
      assert s == [s[0]] + s[1..] && t == [t[0]] + t[1..];
      assert s[0] !in s[1..] && t[0] !in t[1..];
      forall x ensures x in s[1..] <==> x in t[1..] {
        assert x in s <==> x == s[0] || x in s[1..];
        assert x in t <==> x == t[0] || x in t[1..];
        assert x in s <==> x in t;
      }
      AscentIsUnique(s[1..], t[1..]);
    }
  }

  /** There is one way to put a set of strings in order. */
  lemma OrderIsUnique(s: seq<string>, t: seq<string>)
    requires Increasing(s) && Increasing(t) && SameElements(s, t)
    ensures s == t
  {
    AscendingIsIncreasing(s);
    AscendingIsIncreasing(t);
    AscentIsUnique(s, t);
  }

  // ------------------------------------------------------------------
  // Keys
  // ------------------------------------------------------------------

  /** One of the orders in which the entries of the map may be visited. */
  ghost predicate Enumerates(order: seq<string>, tags: Tags) {
    Distinct(order) && forall k :: k in order <==> k in tags
  }

  function Piece(tags: Tags, k: string): string
    requires k in tags
  {
    k + "=" + tags[k]
  }

  function Pairs(tags: Tags, keys: seq<string>): string
    requires forall k <- keys :: k in tags
  {
    if keys == [] then ""
    else ":" + Piece(tags, keys[0]) + Pairs(tags, keys[1..])
  }

  /** The keys of the tags, in order. */
  ghost predicate InOrder(keys: seq<string>, tags: Tags) {
    Increasing(keys) && forall k :: k in keys <==> k in tags
  }

  /** The key for a name and tags: the tags come in the order of their keys. */
  ghost predicate IsKey(key: string, name: string, tags: Tags) {
    exists keys :: InOrder(keys, tags) && key == name + Pairs(tags, keys)
  }

  lemma {:induction false} PairsAppend(tags: Tags, keys: seq<string>, k: string)
    requires (forall x <- keys :: x in tags) && k in tags
    ensures Pairs(tags, keys + [k]) == Pairs(tags, keys) + (":" + Piece(tags, k))
  {
    if keys == [] {
      assert [k][1..] == [] && keys + [k] == [k];
      assert Pairs(tags, [k]) == ":" + Piece(tags, k);
    } else {
      var head, rest, last := ":" + Piece(tags, keys[0]), Pairs(tags, keys[1..]), ":" + Piece(tags, k);
      PairsAppend(tags, keys[1..], k);
      assert (keys + [k])[1..] == keys[1..] + [k];
      assert head + (rest + last) == head + rest + last;
    }
  }

  method WritePairs(name: string, tags: Tags, keys: seq<string>) returns (key: string)
    requires forall k <- keys :: k in tags
    ensures key == name + Pairs(tags, keys)
  {
    key := name;
    for i := 0 to |keys|
      invariant key == name + Pairs(tags, keys[..i])
    {
      PairsAppend(tags, keys[..i], keys[i]);
      assert keys[..i + 1] == keys[..i] + [keys[i]];
      var pair := ":" + (keys[i] + "=" + tags[keys[i]]);
      assert name + Pairs(tags, keys[..i]) + pair == name + (Pairs(tags, keys[..i]) + pair);
      key := key + pair;
    }
    assert keys[..|keys|] == keys;
  }

  /** Formats a key; `visited` is the order in which the tags happen to be visited. */
  method FormatKey(name: string, tags: Tags, visited: seq<string>) returns (key: string)
    requires Enumerates(visited, tags)
    ensures IsKey(key, name, tags)
  {
    if |tags| == 0 {
      assert InOrder([], tags) && name == name + Pairs(tags, []);
      return name;
    }
    var keys: seq<string> := [];
    for i := 0 to |visited|
      invariant keys == visited[..i]
    {
      keys := keys + [visited[i]];
    }
    SortSorts(keys);
    keys := SortStrings(keys);
    assert InOrder(keys, tags);
    key := WritePairs(name, tags, keys);
  }

  /** However the tags are visited, the key is the same. */
  lemma KeyIsCanonical(one: string, two: string, name: string, tags: Tags)
    requires IsKey(one, name, tags) && IsKey(two, name, tags)
    ensures one == two
  {
    var s :| InOrder(s, tags) && one == name + Pairs(tags, s);
    var t :| InOrder(t, tags) && two == name + Pairs(tags, t);
    OrderIsUnique(s, t);
  }

  // ------------------------------------------------------------------
  // Reading a key back
  // ------------------------------------------------------------------

  function Split(s: string, c: char): (pieces: seq<string>)
    ensures |pieces| >= 1
  {
    if s == "" then [""]
    else
      var rest := Split(s[1..], c);
      if s[0] == c then [""] + rest else [[s[0]] + rest[0]] + rest[1..]
  }

  /** A piece up to its first equals sign, and what comes after. */
  function TagOf(piece: string): (string, string) {
    if piece == "" then ("", "")
    else if piece[0] == '=' then ("", piece[1..])
    else
      var (k, v) := TagOf(piece[1..]);
      ([piece[0]] + k, v)
  }

  function TagsOf(pieces: seq<string>): Tags {
    if pieces == [] then map[]
    else
      var (k, v) := TagOf(pieces[0]);
      map[k := v] + TagsOf(pieces[1..])
  }

  datatype Metric = Metric(name: string, tags: Tags)

  function Parse(key: string): Metric {
    var pieces := Split(key, ':');
    Metric(pieces[0], TagsOf(pieces[1..]))
  }

  /** Names, tag keys and values that cannot be mistaken for separators. */
  ghost predicate Plain(name: string, tags: Tags) {
    && ':' !in name
    && (forall k | k in tags :: ':' !in k && '=' !in k && ':' !in tags[k])
  }

  lemma {:induction false} SplitWithout(s: string, c: char)
    requires c !in s
    ensures Split(s, c) == [s]
  {
    if s == "" {
    } else {
      SplitWithout(s[1..], c);
      assert s == [s[0]] + s[1..];
    }
  }

  lemma {:induction false} SplitAt(a: string, c: char, b: string)
    requires c !in a
    ensures Split(a + [c] + b, c) == [a] + Split(b, c)
  {
    var s := a + [c] + b;
    if a == "" {
      assert s[1..] == b;
    } else {
      assert s[1..] == a[1..] + [c] + b;
      SplitAt(a[1..], c, b);
      assert a == [a[0]] + a[1..];
    }
  }

  function Pieces(tags: Tags, keys: seq<string>): seq<string>
    requires forall k <- keys :: k in tags
  {
    if keys == [] then [] else [Piece(tags, keys[0])] + Pieces(tags, keys[1..])
  }

  lemma {:induction false} SplitPairs(head: string, tags: Tags, keys: seq<string>)
    requires ':' !in head && forall k <- keys :: k in tags && ':' !in k && ':' !in tags[k]
    ensures Split(head + Pairs(tags, keys), ':') == [head] + Pieces(tags, keys)
    decreases |keys|
  {
    if keys == [] {
      assert head + "" == head;
      SplitWithout(head, ':');
    } else {
      var piece := Piece(tags, keys[0]);
      var rest := Pairs(tags, keys[1..]);
      assert keys[0] in keys;
      assert head + Pairs(tags, keys) == head + [':'] + (piece + rest);
      SplitAt(head, ':', piece + rest);
      SplitPairs(piece, tags, keys[1..]);
    }
  }

  lemma {:induction false} TagOfPiece(k: string, v: string)
    requires '=' !in k
    ensures TagOf(k + "=" + v) == (k, v)
  {
    var s := k + "=" + v;
    if k == "" {
      assert s[1..] == v;
    } else {
      assert s[1..] == k[1..] + "=" + v;
      TagOfPiece(k[1..], v);
      assert k == [k[0]] + k[1..];
    }
  }

  lemma {:induction false} TagsOfPieces(tags: Tags, keys: seq<string>)
    requires forall k <- keys :: k in tags && '=' !in k
    ensures forall x :: x in TagsOf(Pieces(tags, keys)) <==> x in keys
    ensures forall x | x in keys :: TagsOf(Pieces(tags, keys))[x] == tags[x]
    decreases |keys|
  {
    if keys == [] {
    } else {
      var k := keys[0];
      TagOfPiece(k, tags[k]);
      TagsOfPieces(tags, keys[1..]);
      assert Pieces(tags, keys)[1..] == Pieces(tags, keys[1..]);
      assert TagsOf(Pieces(tags, keys)) == map[k := tags[k]] + TagsOf(Pieces(tags, keys[1..]));
      assert forall x :: x in keys <==> x == k || x in keys[1..];
    }
  }

  lemma PairsParse(name: string, tags: Tags, keys: seq<string>)
    requires Plain(name, tags) && InOrder(keys, tags)
    ensures Parse(name + Pairs(tags, keys)) == Metric(name, tags)
  {
    SplitPairs(name, tags, keys);
    TagsOfPieces(tags, keys);
    assert TagsOf(Pieces(tags, keys)) == tags;
    assert ([name] + Pieces(tags, keys))[1..] == Pieces(tags, keys);
  }

  lemma PlainKeyParses(key: string, name: string, tags: Tags)
    requires IsKey(key, name, tags) && Plain(name, tags)
    ensures Parse(key) == Metric(name, tags)
  {
    var keys :| InOrder(keys, tags) && key == name + Pairs(tags, keys);
    PairsParse(name, tags, keys);
  }

  lemma {:induction false} SplitPiecesPlain(s: string, c: char)
    ensures forall p <- Split(s, c) :: c !in p
  {
    if s == "" {
    } else {
      SplitPiecesPlain(s[1..], c);
      var rest := Split(s[1..], c);
      assert rest[0] in rest;
      assert forall p <- rest[1..] :: p in rest;
    }
  }

  lemma {:induction false} TagOfPlain(piece: string)
    requires ':' !in piece
    ensures var (k, v) := TagOf(piece); ':' !in k && '=' !in k && ':' !in v
  {
    if piece == "" || piece[0] == '=' {
    } else {
      TagOfPlain(piece[1..]);
    }
  }

  lemma {:induction false} TagsOfPlain(pieces: seq<string>)
    requires forall p <- pieces :: ':' !in p
    ensures Plain("", TagsOf(pieces))
  {
    if pieces == [] {
    } else {
      TagOfPlain(pieces[0]);
      assert forall p <- pieces[1..] :: p in pieces;
      TagsOfPlain(pieces[1..]);
    }
  }

  /** Name and tags can be read back from a key exactly when no separator occurs where it would be mistaken for one. */
  lemma KeyReadsBackExactlyWhenPlain(key: string, name: string, tags: Tags)
    requires IsKey(key, name, tags)
    ensures Parse(key) == Metric(name, tags) <==> Plain(name, tags)
  {
    if Plain(name, tags) {
      PlainKeyParses(key, name, tags);
    }
    var pieces := Split(key, ':');
    SplitPiecesPlain(key, ':');
    assert forall p <- pieces[1..] :: p in pieces;
    TagsOfPlain(pieces[1..]);
    assert pieces[0] in pieces;
  }

  /** Plain metrics never share a key. */
  lemma PlainKeysDoNotCollide(key: string, one: Metric, two: Metric)
    requires IsKey(key, one.name, one.tags) && Plain(one.name, one.tags)
    requires IsKey(key, two.name, two.tags) && Plain(two.name, two.tags)
    ensures one == two
  {
    PlainKeyParses(key, one.name, one.tags);
    PlainKeyParses(key, two.name, two.tags);
  }

  /** A value with a colon in it can be taken for another tag. */
  lemma ColonInValueCollides()
    ensures IsKey("m:a=1:b=2", "m", map["a" := "1:b=2"])
    ensures IsKey("m:a=1:b=2", "m", map["a" := "1", "b" := "2"])
  {
    var one: Tags := map["a" := "1:b=2"];
    var two: Tags := map["a" := "1", "b" := "2"];
    assert ["a"][1..] == [] && ["a", "b"][1..] == ["b"] && ["b"][1..] == [];
    assert Pairs(one, ["a"]) == ":a=1:b=2";
    assert Pairs(two, ["b"]) == ":b=2";
    assert Pairs(two, ["a", "b"]) == ":a=1:b=2";
    assert DifferFirstAt("a", "b", 0);
    assert InOrder(["a"], one) && InOrder(["a", "b"], two);
    assert "m" + ":a=1:b=2" == "m:a=1:b=2";
  }
}
