/** The header set of src/proto/http/http_header.c: a red-black tree ordered by key. */
module HttpHeaders {
  import opened HttpMachine
  import opened RbTree

  /** Text, as the signed characters the parsers see. */
  type Text = seq<int>

  type Headers = seq<(Text, Text)>

  function AddAll(m: map<Text, Text>, hs: Headers): map<Text, Text> {
    if hs == [] then m else AddAll(m, hs[..|hs| - 1])[hs[|hs| - 1].0 := hs[|hs| - 1].1]
  }

  function HeaderLine(key: Text, value: Text): Text {
    key + [COLON, SP] + value + [CR, LF]
  }

  function PrintHeaders(hs: Headers): Text {
    if hs == [] then []
    else PrintHeaders(hs[..|hs| - 1]) + HeaderLine(hs[|hs| - 1].0, hs[|hs| - 1].1)
  }

  lemma PrintOne(before: Text, hs: Headers, i: nat)
    requires i < |hs|
    ensures before + PrintHeaders(hs[..i + 1]) == before + PrintHeaders(hs[..i]) + HeaderLine(hs[i].0, hs[i].1)
  {
    assert hs[..i + 1][..i] == hs[..i];
  }

  /** How memcmp orders two bytes given as signed characters: the negative ones come last. */
  function CompareChar(a: int, b: int): int {
    if a == b then 0 else if (a < 0) == (b < 0) then if a < b then -1 else 1 else if a < 0 then 1 else -1
  }

  /** rn_buffer_cmp: the common prefix byte by byte, then the lengths. */
  function Compare(a: Text, b: Text): int {
    if a == [] || b == [] then |a| - |b|
    else if a[0] != b[0] then CompareChar(a[0], b[0])
    else Compare(a[1..], b[1..])
  }

  lemma {:induction false} CompareZero(a: Text, b: Text)
    ensures Compare(a, b) == 0 <==> a == b
  {
    if a != [] && b != [] && a[0] == b[0] {
      CompareZero(a[1..], b[1..]);
      assert a == [a[0]] + a[1..] && b == [b[0]] + b[1..];
    }
  }

  lemma {:induction false} CompareFlips(a: Text, b: Text)
    ensures Compare(a, b) < 0 <==> Compare(b, a) > 0
  {
    if a != [] && b != [] && a[0] == b[0] {
      CompareFlips(a[1..], b[1..]);
    }
  }

  lemma {:induction false} CompareChains(a: Text, b: Text, c: Text)
    requires Compare(a, b) < 0 && Compare(b, c) < 0
    ensures Compare(a, c) < 0
  {
    if a != [] && b != [] && c != [] && a[0] == b[0] == c[0] {
      CompareChains(a[1..], b[1..], c[1..]);
    }
  }

  predicate Less(a: Text, b: Text) {
    Compare(a, b) < 0
  }

  // Listings

  /** In strictly increasing order of key. */
  ghost predicate Listed(hs: Headers) {
    forall i, j :: 0 <= i < j < |hs| ==> Less(hs[i].0, hs[j].0)
  }

  ghost predicate Lists(hs: Headers, m: map<Text, Text>) {
    && (forall i :: 0 <= i < |hs| ==> hs[i].0 in m && m[hs[i].0] == hs[i].1)
    && (forall k :: k in m ==> exists i :: 0 <= i < |hs| && hs[i].0 == k)
  }

  lemma DistinctKeys(hs: Headers, i: int, j: int)
    requires Listed(hs) && 0 <= i < |hs| && 0 <= j < |hs| && hs[i].0 == hs[j].0
    ensures i == j
  {
    if i < j {
      CompareZero(hs[i].0, hs[j].0);
    } else if j < i {
      CompareZero(hs[j].0, hs[i].0);
    }
  }

  lemma ListsMore(hs: Headers, n: nat, m: map<Text, Text>, m1: map<Text, Text>)
    requires Listed(hs) && n == |hs| - 1 && Lists(hs[..n], m) && m1 == m[hs[n].0 := hs[n].1]
    ensures Lists(hs, m1)
  {
    var front := hs[..n];
    forall i | 0 <= i < n
      ensures hs[i].0 != hs[n].0 && hs[i] == front[i]
    {
      CompareZero(hs[i].0, hs[n].0);
    }
    forall k | k in m1
      ensures exists i :: 0 <= i < |hs| && hs[i].0 == k
    {
      if k != hs[n].0 {
        var i :| 0 <= i < |front| && front[i].0 == k;
        assert hs[i].0 == k;
      }
    }
  }

  /** A listing in order of key loses nothing when its entries are added one by one. */
  lemma {:induction false} AddAllLists(hs: Headers)
    requires Listed(hs)
    ensures Lists(hs, AddAll(map[], hs))
  {
    if hs != [] {
      var n := |hs| - 1;
      AddAllLists(hs[..n]);
      ListsMore(hs, n, AddAll(map[], hs[..n]), AddAll(map[], hs));
    }
  }

  lemma ListsOne(hs: Headers, m: map<Text, Text>)
    requires Listed(hs) && Lists(hs, m)
    ensures AddAll(map[], hs) == m
  {
    AddAllLists(hs);
    var m1 := AddAll(map[], hs);
    forall k
      ensures k in m1 <==> k in m
      ensures k in m1 && k in m ==> m1[k] == m[k]
    {
    }
  }

  lemma UpdatedLists(hs: Headers, i: nat, v: Text)
    requires Listed(hs) && i < |hs|
    ensures var hs1 := hs[i := (hs[i].0, v)]; Listed(hs1) && AddAll(map[], hs1) == AddAll(map[], hs)[hs[i].0 := v]
  {
    var hs1, m1 := hs[i := (hs[i].0, v)], AddAll(map[], hs)[hs[i].0 := v];
    AddAllLists(hs);
    forall j | 0 <= j < |hs| && hs[j].0 == hs[i].0
      ensures j == i
    {
      DistinctKeys(hs, i, j);
    }
    forall k | k in m1
      ensures exists j :: 0 <= j < |hs1| && hs1[j].0 == k
    {
      var j :| 0 <= j < |hs| && hs[j].0 == k;
      assert hs1[j].0 == k;
    }
    ListsOne(hs1, m1);
  }

  lemma RemovedKeys(hs: Headers, k: nat, hs1: Headers)
    requires Listed(hs) && k < |hs| && hs1 == hs[..k] + hs[k + 1..]
    ensures Listed(hs1) && forall i :: 0 <= i < |hs1| ==> hs1[i] == hs[if i < k then i else i + 1] && hs1[i].0 != hs[k].0
  {
    forall i | 0 <= i < |hs1|
      ensures hs1[i] == hs[if i < k then i else i + 1] && hs1[i].0 != hs[k].0
    {
      if hs1[i].0 == hs[k].0 {
        DistinctKeys(hs, if i < k then i else i + 1, k);
      }
    }
  }

  lemma RemovedFrom(hs: Headers, k: nat, hs1: Headers, m: map<Text, Text>, m1: map<Text, Text>)
    requires Listed(hs) && Lists(hs, m) && k < |hs| && hs1 == hs[..k] + hs[k + 1..] && m1 == m - {hs[k].0}
    ensures Listed(hs1) && Lists(hs1, m1)
  {
    RemovedKeys(hs, k, hs1);
    forall x | x in m1
      ensures exists j :: 0 <= j < |hs1| && hs1[j].0 == x
    {
      var j :| 0 <= j < |hs| && hs[j].0 == x;
      assert hs1[if j < k then j else j - 1].0 == x;
    }
  }

  lemma RemovedLists(hs: Headers, k: nat, hs1: Headers)
    requires Listed(hs) && k < |hs| && hs1 == hs[..k] + hs[k + 1..]
    ensures Listed(hs1) && AddAll(map[], hs1) == AddAll(map[], hs) - {hs[k].0}
  {
    var m := AddAll(map[], hs);
    AddAllLists(hs);
    RemovedFrom(hs, k, hs1, m, m - {hs[k].0});
    ListsOne(hs1, m - {hs[k].0});
  }

  lemma InsertedListed(hs: Headers, k: nat, key: Text, v: Text, hs1: Headers)
    requires Listed(hs) && k <= |hs| && hs1 == hs[..k] + [(key, v)] + hs[k..]
    requires forall i :: 0 <= i < k ==> Compare(key, hs[i].0) > 0
    requires forall i :: k <= i < |hs| ==> Compare(key, hs[i].0) < 0
    ensures Listed(hs1)
  {
    forall i, j | 0 <= i < j < |hs1|
      ensures Less(hs1[i].0, hs1[j].0)
    {
      assert i < k ==> hs1[i] == hs[i];
      assert i > k ==> hs1[i] == hs[i - 1];
      assert j < k ==> hs1[j] == hs[j];
      assert j > k ==> hs1[j] == hs[j - 1];
      CompareFlips(hs1[i].0, hs1[j].0);
    }
  }

  lemma InsertedLists(hs: Headers, k: nat, key: Text, v: Text, hs1: Headers)
    requires k <= |hs| && hs1 == hs[..k] + [(key, v)] + hs[k..] && Listed(hs1)
    ensures AddAll(map[], hs1) == AddAll(map[], hs)[key := v]
  {
    assert hs1[k] == (key, v);
    assert hs == hs1[..k] + hs1[k + 1..];
    RemovedLists(hs1, k, hs);
    AddAllLists(hs1);
  }

  lemma LastIsGreatest(hs: Headers, m: map<Text, Text>, k: Text)
    requires Listed(hs) && Lists(hs, m) && k in m
    ensures hs != [] && (k == hs[|hs| - 1].0 || Less(k, hs[|hs| - 1].0))
  {
    var i :| 0 <= i < |hs| && hs[i].0 == k;
  }

  lemma SameLast(a: Headers, b: Headers, m: map<Text, Text>)
    requires Listed(a) && Listed(b) && Lists(a, m) && Lists(b, m) && a != []
    ensures b != [] && a[|a| - 1] == b[|b| - 1]
  {
    var x := a[|a| - 1];
    LastIsGreatest(b, m, x.0);
    var y := b[|b| - 1];
    LastIsGreatest(a, m, y.0);
    CompareFlips(x.0, y.0);
  }

  lemma WithoutLast(a: Headers, m: map<Text, Text>)
    requires Listed(a) && Lists(a, m) && a != []
    ensures var i := |a| - 1; Listed(a[..i]) && Lists(a[..i], m - {a[i].0})
  {
    var i := |a| - 1;
    RemovedFrom(a, i, a[..i], m, m - {a[i].0});
  }

  lemma SameParts(a: Headers, b: Headers)
    requires a != [] && b != [] && a[..|a| - 1] == b[..|b| - 1] && a[|a| - 1] == b[|b| - 1]
    ensures a == b
  {
    assert a == a[..|a| - 1] + [a[|a| - 1]] && b == b[..|b| - 1] + [b[|b| - 1]];
  }

  lemma {:induction false} SameList(a: Headers, b: Headers, m: map<Text, Text>)
    requires Listed(a) && Listed(b) && Lists(a, m) && Lists(b, m)
    ensures a == b
    decreases |a|
  {
    if a != [] {
      SameLast(a, b, m);
      WithoutLast(a, m);
      WithoutLast(b, m);
      SameList(a[..|a| - 1], b[..|b| - 1], m - {a[|a| - 1].0});
      SameParts(a, b);
    } else if b != [] {
      SameLast(b, a, m);
    }
  }

  /** A map has one listing: what is printed depends on the headers set, not on the order of setting them. */
  lemma OneListing(a: Headers, b: Headers)
    requires Listed(a) && Listed(b) && AddAll(map[], a) == AddAll(map[], b)
    ensures a == b
  {
    AddAllLists(a);
    AddAllLists(b);
    SameList(a, b, AddAll(map[], a));
  }

  datatype Header = Header(key: Text, value: Text)

  function CompareKeys(a: Header, b: Header): int {
    Compare(a.key, b.key)
  }

  /** The C string at the start of `s`: what comes before the first NUL. */
  function CStr(s: Text): Text {
    if s == [] || s[0] == 0 then [] else [s[0]] + CStr(s[1..])
  }

  class HeaderSet {
    const tree: Tree<Header>
    var length: nat
    var contentLength: nat

    ghost predicate Valid()
      reads tree, tree.repr
    {
      && tree.Valid()
      && tree.compare == CompareKeys
      && tree.hasDelete
      && Listed(Pairs())
    }

    ghost function Pairs(): (hs: Headers)
      requires tree.Valid()
      reads tree, tree.repr
      ensures |hs| == |tree.contents|
      ensures forall i :: 0 <= i < |hs| ==> hs[i] == (tree.contents[i].data.key, tree.contents[i].data.value)
    {
      seq(|tree.contents|, i requires 0 <= i < |tree.contents| && tree.Valid() reads tree, tree.repr =>
        (tree.contents[i].data.key, tree.contents[i].data.value))
    }

    ghost function Map(): map<Text, Text>
      requires Valid()
      reads tree, tree.repr
    {
      AddAll(map[], Pairs())
    }

    constructor ()
      ensures Valid() && fresh(tree) && Pairs() == [] && length == 0 && contentLength == 0
      ensures tree.repr == {}
    {
      tree := new Tree(CompareKeys, true);
      length, contentLength := 0, 0;
    }

    /** rn_http_headers_flush */
    method Flush()
      requires Valid()
      modifies this, tree
      ensures Valid() && Pairs() == [] && length == 0 && contentLength == 0 && tree.repr == {}
    {
      length, contentLength := 0, 0;
      var _ := tree.Flush();
    }

    lemma KeysCut(h: Header)
      requires Valid()
      ensures tree.Cuts(h)
    {
      var hs := Pairs();
      forall i, j | 0 <= i < j < |tree.contents| && CompareKeys(h, tree.contents[j].data) >= 0
        ensures CompareKeys(h, tree.contents[i].data) > 0
      {
        assert Less(hs[i].0, hs[j].0);
        CompareFlips(hs[i].0, h.key);
        CompareFlips(h.key, hs[j].0);
        CompareZero(h.key, hs[j].0);
        if Compare(h.key, hs[j].0) > 0 {
          CompareFlips(hs[j].0, h.key);
          CompareChains(hs[i].0, hs[j].0, h.key);
        }
      }
    }

    /** rn_http_header_get */
    method Get(key: Text) returns (node: Node?<Header>)
      requires Valid()
      ensures node == null ==> CStr(key) !in Map()
      ensures node != null ==> node in tree.repr && CStr(key) in Map() && node.data == Header(CStr(key), Map()[CStr(key)])
    {
      var h := Header(CStr(key), []);
      KeysCut(h);
      node := tree.Find(h);
      AddAllLists(Pairs());
      if node != null {
        CompareZero(h.key, node.data.key);
        assert tree.Linked(node);
        assert Pairs()[node.pos] == (node.data.key, node.data.value);
      } else if h.key in Map() {
        var i :| 0 <= i < |Pairs()| && Pairs()[i].0 == h.key;
        CompareZero(h.key, tree.contents[i].data.key);
        assert false;
      }
    }

    method Replace(node: Node<Header>, value: Text)
      requires Valid() && node in tree.repr
      modifies node`data
      ensures Valid() && node.data == old(node.data).(value := value)
      ensures Map() == old(Map())[node.data.key := value]
    {
      ghost var hs := Pairs();
      assert tree.Linked(node);
      node.data := node.data.(value := value);
      assert Pairs() == hs[node.pos := (node.data.key, value)];
      UpdatedLists(hs, node.pos, value);
    }

    method PutNew(node: Node<Header>) returns (ghost k: nat)
      requires Valid() && node !in tree.repr && node.data.key !in Map()
      modifies tree, tree.repr, node
      ensures tree.Valid() && tree.repr == old(tree.repr) + {node} && k <= |old(tree.contents)|
      ensures tree.contents == old(tree.contents)[..k] + [node] + old(tree.contents)[k..]
      ensures node.data == old(node.data) && forall n :: n in old(tree.repr) ==> n.data == old(n.data)
      ensures forall i :: 0 <= i < k ==> Compare(node.data.key, old(tree.contents[i].data.key)) > 0
      ensures forall i :: k <= i < |old(tree.contents)| ==> Compare(node.data.key, old(tree.contents[i].data.key)) < 0
    {
      KeysCut(node.data);
      NoEqual(node.data);
      var r;
      r, k := tree.Put(node);
    }

    method Insert(node: Node<Header>)
      requires Valid() && node !in tree.repr && node.data.key !in Map()
      modifies tree, tree.repr, node
      ensures Valid() && tree.repr == old(tree.repr) + {node} && node.data == old(node.data)
      ensures Map() == old(Map())[node.data.key := node.data.value]
    {
      ghost var hs := Pairs();
      ghost var k := PutNew(node);
      assert Pairs() == hs[..k] + [(node.data.key, node.data.value)] + hs[k..];
      InsertedListed(hs, k, node.data.key, node.data.value, Pairs());
      InsertedLists(hs, k, node.data.key, node.data.value, Pairs());
    }

    lemma NoEqual(h: Header)
      requires Valid() && h.key !in Map()
      ensures forall n :: n in tree.repr ==> tree.compare(h, n.data) != 0
    {
      AddAllLists(Pairs());
      forall n | n in tree.repr
        ensures tree.compare(h, n.data) != 0
      {
        assert tree.Linked(n);
        assert Pairs()[n.pos].0 == n.data.key;
        CompareZero(h.key, n.data.key);
      }
    }

    /** rn_http_header_setdata; `value` holds the bytes up to the size given. */
    method SetData(key: Text, value: Text) returns (r: int)
      requires Valid()
      modifies tree, tree.repr
      ensures Valid() && fresh(tree.repr - old(tree.repr))
      ensures r == if value == [] then -1 else 0
      ensures Map() == if value == [] then old(Map()) else old(Map())[CStr(key) := CStr(value)]
    {
      if value == [] {
        return -1;
      }
      var node := Get(key);
      if node != null {
        Replace(node, CStr(value));
      } else {
        node := new Node(Header(CStr(key), CStr(value)));
        Insert(node);
      }
      return 0;
    }

    method Cut(node: Node<Header>)
      requires Valid() && node in tree.repr
      modifies tree, tree.repr
      ensures Valid() && tree.repr <= old(tree.repr) && Map() == old(Map()) - {old(node.data.key)}
    {
      ghost var hs := Pairs();
      assert tree.Linked(node);
      ghost var k := node.pos;
      var _ := tree.Remove(node);
      assert Pairs() == hs[..k] + hs[k + 1..];
      RemovedLists(hs, k, Pairs());
    }

    /** rn_http_header_remove */
    method Remove(key: Text)
      requires Valid()
      modifies tree, tree.repr
      ensures Valid() && tree.repr <= old(tree.repr)
      ensures Map() == old(Map()) - {CStr(key)}
    {
      var node := Get(key);
      if node != null {
        Cut(node);
      }
    }

    /** The loop of rn_http_request_send and rn_http_response_prepare over the headers. */
    method Print(buffer: Text) returns (r: Text)
      requires Valid()
      ensures r == buffer + PrintHeaders(Pairs())
    {
      ghost var hs, i := Pairs(), 0;
      r := buffer;
      var node := tree.head;
      while node != null
        invariant 0 <= i <= |hs|
        invariant node == if i < |hs| then tree.contents[i] else null
        invariant r == buffer + PrintHeaders(hs[..i])
        decreases |hs| - i
      {
        PrintOne(buffer, hs, i);
        r := r + HeaderLine(node.data.key, node.data.value);
        node := tree.Next(node);
        i := i + 1;
      }
      assert hs[..i] == hs;
    }
  }
}
