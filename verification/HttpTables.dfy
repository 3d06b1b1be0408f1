/** The state tables of http_request_parse.c and http_response_parse.c, one row a state. */
module HttpTables {
  import opened HttpMachine

  datatype Range = Range(lo: int, hi: int)

  /** Single characters, then ranges, then where each leads; the last entry is for no match. */
  datatype Row = Row(keys: seq<int>, ranges: seq<Range>, gotos: seq<Goto>)

  function RequestRow(cs: nat): Row {
    match cs
    case 1 => Row([67, 68, 71, 72, 79, 80, 84, 99, 100, 103, 104, 111, 112, 116], [], [Goto(2, []), Goto(50, []), Goto(56, []), Goto(59, []), Goto(63, []), Goto(70, []), Goto(76, []), Goto(2, []), Goto(50, []), Goto(56, []), Goto(59, []), Goto(63, []), Goto(70, []), Goto(76, []), FAIL])
    case 2 => Row([79, 111], [], [Goto(3, []), Goto(3, []), FAIL])
    case 3 => Row([78, 110], [], [Goto(4, []), Goto(4, []), FAIL])
    case 4 => Row([78, 110], [], [Goto(5, []), Goto(5, []), FAIL])
    case 5 => Row([69, 101], [], [Goto(6, []), Goto(6, []), FAIL])
    case 6 => Row([67, 99], [], [Goto(7, []), Goto(7, []), FAIL])
    case 7 => Row([84, 116], [], [Goto(8, []), Goto(8, []), FAIL])
    case 8 => Row([32], [], [Goto(9, [SetMethod(CONNECT)]), FAIL])
    case 9 => Row([13, 32], [Range(0, 127)], [Goto(11, [StartUri]), Goto(12, [StartUri, EndUri]), Goto(10, [StartUri]), FAIL])
    case 10 => Row([13, 32], [Range(0, 127)], [Goto(11, []), Goto(12, [EndUri]), Goto(10, []), FAIL])
    case 11 => Row([13, 32], [Range(0, 9), Range(11, 127)], [Goto(11, []), Goto(12, [EndUri]), Goto(10, []), Goto(10, []), FAIL])
    case 12 => Row([13, 32, 72], [Range(0, 127)], [Goto(11, []), Goto(12, [EndUri]), Goto(13, []), Goto(10, []), FAIL])
    case 13 => Row([13, 32, 84], [Range(0, 127)], [Goto(11, []), Goto(12, [EndUri]), Goto(14, []), Goto(10, []), FAIL])
    case 14 => Row([13, 32, 84], [Range(0, 127)], [Goto(11, []), Goto(12, [EndUri]), Goto(15, []), Goto(10, []), FAIL])
    case 15 => Row([13, 32, 80], [Range(0, 127)], [Goto(11, []), Goto(12, [EndUri]), Goto(16, []), Goto(10, []), FAIL])
    case 16 => Row([13, 32, 47], [Range(0, 127)], [Goto(11, []), Goto(12, [EndUri]), Goto(17, []), Goto(10, []), FAIL])
    case 17 => Row([13, 32, 49], [Range(0, 127)], [Goto(11, []), Goto(12, [EndUri]), Goto(18, []), Goto(10, []), FAIL])
    case 18 => Row([13, 32, 46], [Range(0, 127)], [Goto(11, []), Goto(12, [EndUri]), Goto(19, []), Goto(10, []), FAIL])
    case 19 => Row([13, 32, 48, 49], [Range(0, 127)], [Goto(11, []), Goto(12, [EndUri]), Goto(20, []), Goto(49, []), Goto(10, []), FAIL])
    case 20 => Row([13, 32], [Range(0, 127)], [Goto(21, [SetVersion(V10)]), Goto(12, [EndUri]), Goto(10, []), FAIL])
    case 21 => Row([10, 13, 32], [Range(0, 127)], [Goto(22, []), Goto(11, []), Goto(12, [EndUri]), Goto(10, []), FAIL])
    case 22 => Row([13, 67, 99], [Range(33, 126)], [Goto(23, []), Goto(32, [StartHead]), Goto(32, [StartHead]), Goto(24, [StartHead]), FAIL])
    case 23 => Row([10], [], [Goto(81, [Accept]), FAIL])
    case 24 => Row([58], [Range(33, 126)], [Goto(25, [EndHead]), Goto(24, []), FAIL])
    case 25 => Row([32, 58], [Range(33, 126)], [Goto(26, []), Goto(25, [EndHead]), Goto(24, []), FAIL])
    case 26 => Row([13], [Range(0, 127)], [Goto(28, [StartValue, EndValue]), Goto(27, [StartValue]), FAIL])
    case 27 => Row([13], [Range(0, 127)], [Goto(28, [EndValue]), Goto(27, []), FAIL])
    case 28 => Row([10, 13], [Range(0, 127)], [Goto(29, []), Goto(28, [EndValue]), Goto(27, []), FAIL])
    case 29 => Row([9, 13, 32, 67, 99], [Range(33, 126)], [Goto(30, []), Goto(23, []), Goto(30, []), Goto(32, [StartHead]), Goto(32, [StartHead]), Goto(24, [StartHead]), FAIL])
    case 30 => Row([13], [Range(0, 127)], [Goto(31, []), Goto(27, []), FAIL])
    case 31 => Row([13], [Range(0, 9), Range(11, 127)], [Goto(28, [EndValue]), Goto(27, []), Goto(27, []), FAIL])
    case 32 => Row([58, 79, 111], [Range(33, 126)], [Goto(25, [EndHead]), Goto(33, []), Goto(33, []), Goto(24, []), FAIL])
    case 33 => Row([58, 78, 110], [Range(33, 126)], [Goto(25, [EndHead]), Goto(34, []), Goto(34, []), Goto(24, []), FAIL])
    case 34 => Row([58, 84, 116], [Range(33, 126)], [Goto(25, [EndHead]), Goto(35, []), Goto(35, []), Goto(24, []), FAIL])
    case 35 => Row([58, 69, 101], [Range(33, 126)], [Goto(25, [EndHead]), Goto(36, []), Goto(36, []), Goto(24, []), FAIL])
    case 36 => Row([58, 78, 110], [Range(33, 126)], [Goto(25, [EndHead]), Goto(37, []), Goto(37, []), Goto(24, []), FAIL])
    case 37 => Row([58, 84, 116], [Range(33, 126)], [Goto(25, [EndHead]), Goto(38, []), Goto(38, []), Goto(24, []), FAIL])
    case 38 => Row([45, 58], [Range(33, 126)], [Goto(39, []), Goto(25, [EndHead]), Goto(24, []), FAIL])
    case 39 => Row([58, 76, 108], [Range(33, 126)], [Goto(25, [EndHead]), Goto(40, []), Goto(40, []), Goto(24, []), FAIL])
    case 40 => Row([58, 69, 101], [Range(33, 126)], [Goto(25, [EndHead]), Goto(41, []), Goto(41, []), Goto(24, []), FAIL])
    case 41 => Row([58, 78, 110], [Range(33, 126)], [Goto(25, [EndHead]), Goto(42, []), Goto(42, []), Goto(24, []), FAIL])
    case 42 => Row([58, 71, 103], [Range(33, 126)], [Goto(25, [EndHead]), Goto(43, []), Goto(43, []), Goto(24, []), FAIL])
    case 43 => Row([58, 84, 116], [Range(33, 126)], [Goto(25, [EndHead]), Goto(44, []), Goto(44, []), Goto(24, []), FAIL])
    case 44 => Row([58, 72, 104], [Range(33, 126)], [Goto(25, [EndHead]), Goto(45, []), Goto(45, []), Goto(24, []), FAIL])
    case 45 => Row([58], [Range(33, 126)], [Goto(46, [EndHead]), Goto(24, []), FAIL])
    case 46 => Row([32, 58], [Range(33, 126)], [Goto(47, []), Goto(25, [EndHead]), Goto(24, []), FAIL])
    case 47 => Row([13], [Range(0, 47), Range(48, 57), Range(58, 127)], [Goto(28, [StartValue, EndValue]), Goto(27, [StartValue]), Goto(48, [StartValue, StartCl]), Goto(27, [StartValue]), FAIL])
    case 48 => Row([13], [Range(0, 47), Range(48, 57), Range(58, 127)], [Goto(28, [EndValue, EndCl]), Goto(27, []), Goto(48, []), Goto(27, []), FAIL])
    case 49 => Row([13, 32], [Range(0, 127)], [Goto(21, [SetVersion(V11)]), Goto(12, [EndUri]), Goto(10, []), FAIL])
    case 50 => Row([69, 101], [], [Goto(51, []), Goto(51, []), FAIL])
    case 51 => Row([76, 108], [], [Goto(52, []), Goto(52, []), FAIL])
    case 52 => Row([69, 101], [], [Goto(53, []), Goto(53, []), FAIL])
    case 53 => Row([84, 116], [], [Goto(54, []), Goto(54, []), FAIL])
    case 54 => Row([69, 101], [], [Goto(55, []), Goto(55, []), FAIL])
    case 55 => Row([32], [], [Goto(9, [SetMethod(DELETE)]), FAIL])
    case 56 => Row([69, 101], [], [Goto(57, []), Goto(57, []), FAIL])
    case 57 => Row([84, 116], [], [Goto(58, []), Goto(58, []), FAIL])
    case 58 => Row([32], [], [Goto(9, [SetMethod(GET)]), FAIL])
    case 59 => Row([69, 101], [], [Goto(60, []), Goto(60, []), FAIL])
    case 60 => Row([65, 97], [], [Goto(61, []), Goto(61, []), FAIL])
    case 61 => Row([68, 100], [], [Goto(62, []), Goto(62, []), FAIL])
    case 62 => Row([32], [], [Goto(9, [SetMethod(HEAD)]), FAIL])
    case 63 => Row([80, 112], [], [Goto(64, []), Goto(64, []), FAIL])
    case 64 => Row([84, 116], [], [Goto(65, []), Goto(65, []), FAIL])
    case 65 => Row([73, 105], [], [Goto(66, []), Goto(66, []), FAIL])
    case 66 => Row([79, 111], [], [Goto(67, []), Goto(67, []), FAIL])
    case 67 => Row([78, 110], [], [Goto(68, []), Goto(68, []), FAIL])
    case 68 => Row([83, 115], [], [Goto(69, []), Goto(69, []), FAIL])
    case 69 => Row([32], [], [Goto(9, [SetMethod(OPTIONS)]), FAIL])
    case 70 => Row([79, 85, 111, 117], [], [Goto(71, []), Goto(74, []), Goto(71, []), Goto(74, []), FAIL])
    case 71 => Row([83, 115], [], [Goto(72, []), Goto(72, []), FAIL])
    case 72 => Row([84, 116], [], [Goto(73, []), Goto(73, []), FAIL])
    case 73 => Row([32], [], [Goto(9, [SetMethod(POST)]), FAIL])
    case 74 => Row([84, 116], [], [Goto(75, []), Goto(75, []), FAIL])
    case 75 => Row([32], [], [Goto(9, [SetMethod(PUT)]), FAIL])
    case 76 => Row([82, 114], [], [Goto(77, []), Goto(77, []), FAIL])
    case 77 => Row([65, 97], [], [Goto(78, []), Goto(78, []), FAIL])
    case 78 => Row([67, 99], [], [Goto(79, []), Goto(79, []), FAIL])
    case 79 => Row([69, 101], [], [Goto(80, []), Goto(80, []), FAIL])
    case 80 => Row([32], [], [Goto(9, [SetMethod(TRACE)]), FAIL])
    case 81 => Row([], [], [FAIL])
    case _ => Row([], [], [FAIL])
  }

  function ResponseRow(cs: nat): Row {
    match cs
    case 1 => Row([72], [], [Goto(2, []), FAIL])
    case 2 => Row([84], [], [Goto(3, []), FAIL])
    case 3 => Row([84], [], [Goto(4, []), FAIL])
    case 4 => Row([80], [], [Goto(5, []), FAIL])
    case 5 => Row([47], [], [Goto(6, []), FAIL])
    case 6 => Row([49], [], [Goto(7, []), FAIL])
    case 7 => Row([46], [], [Goto(8, []), FAIL])
    case 8 => Row([48, 49], [], [Goto(9, []), Goto(44, []), FAIL])
    case 9 => Row([32], [], [Goto(10, [SetVersion(V10)]), FAIL])
    case 10 => Row([], [Range(48, 57)], [Goto(11, [StartCode]), FAIL])
    case 11 => Row([], [Range(48, 57)], [Goto(12, []), FAIL])
    case 12 => Row([], [Range(48, 57)], [Goto(13, []), FAIL])
    case 13 => Row([32], [], [Goto(14, []), FAIL])
    case 14 => Row([13], [Range(0, 127)], [Goto(16, [StartMsg, EndMsg]), Goto(15, [StartMsg]), FAIL])
    case 15 => Row([13], [Range(0, 127)], [Goto(16, [EndMsg]), Goto(15, []), FAIL])
    case 16 => Row([10, 13], [Range(0, 127)], [Goto(17, []), Goto(16, [EndMsg]), Goto(15, []), FAIL])
    case 17 => Row([13, 67, 99], [Range(33, 126)], [Goto(18, []), Goto(27, [StartHead]), Goto(27, [StartHead]), Goto(19, [StartHead]), FAIL])
    case 18 => Row([10], [], [Goto(45, [Accept]), FAIL])
    case 19 => Row([58], [Range(33, 126)], [Goto(20, [EndHead]), Goto(19, []), FAIL])
    case 20 => Row([32, 58], [Range(33, 126)], [Goto(21, []), Goto(20, [EndHead]), Goto(19, []), FAIL])
    case 21 => Row([13], [Range(0, 127)], [Goto(23, [StartValue, EndValue]), Goto(22, [StartValue]), FAIL])
    case 22 => Row([13], [Range(0, 127)], [Goto(23, [EndValue]), Goto(22, []), FAIL])
    case 23 => Row([10, 13], [Range(0, 127)], [Goto(24, []), Goto(23, [EndValue]), Goto(22, []), FAIL])
    case 24 => Row([9, 13, 32, 67, 99], [Range(33, 126)], [Goto(25, []), Goto(18, []), Goto(25, []), Goto(27, [StartHead]), Goto(27, [StartHead]), Goto(19, [StartHead]), FAIL])
    case 25 => Row([13], [Range(0, 127)], [Goto(26, []), Goto(22, []), FAIL])
    case 26 => Row([13], [Range(0, 9), Range(11, 127)], [Goto(23, [EndValue]), Goto(22, []), Goto(22, []), FAIL])
    case 27 => Row([58, 79, 111], [Range(33, 126)], [Goto(20, [EndHead]), Goto(28, []), Goto(28, []), Goto(19, []), FAIL])
    case 28 => Row([58, 78, 110], [Range(33, 126)], [Goto(20, [EndHead]), Goto(29, []), Goto(29, []), Goto(19, []), FAIL])
    case 29 => Row([58, 84, 116], [Range(33, 126)], [Goto(20, [EndHead]), Goto(30, []), Goto(30, []), Goto(19, []), FAIL])
    case 30 => Row([58, 69, 101], [Range(33, 126)], [Goto(20, [EndHead]), Goto(31, []), Goto(31, []), Goto(19, []), FAIL])
    case 31 => Row([58, 78, 110], [Range(33, 126)], [Goto(20, [EndHead]), Goto(32, []), Goto(32, []), Goto(19, []), FAIL])
    case 32 => Row([58, 84, 116], [Range(33, 126)], [Goto(20, [EndHead]), Goto(33, []), Goto(33, []), Goto(19, []), FAIL])
    case 33 => Row([45, 58], [Range(33, 126)], [Goto(34, []), Goto(20, [EndHead]), Goto(19, []), FAIL])
    case 34 => Row([58, 76, 108], [Range(33, 126)], [Goto(20, [EndHead]), Goto(35, []), Goto(35, []), Goto(19, []), FAIL])
    case 35 => Row([58, 69, 101], [Range(33, 126)], [Goto(20, [EndHead]), Goto(36, []), Goto(36, []), Goto(19, []), FAIL])
    case 36 => Row([58, 78, 110], [Range(33, 126)], [Goto(20, [EndHead]), Goto(37, []), Goto(37, []), Goto(19, []), FAIL])
    case 37 => Row([58, 71, 103], [Range(33, 126)], [Goto(20, [EndHead]), Goto(38, []), Goto(38, []), Goto(19, []), FAIL])
    case 38 => Row([58, 84, 116], [Range(33, 126)], [Goto(20, [EndHead]), Goto(39, []), Goto(39, []), Goto(19, []), FAIL])
    case 39 => Row([58, 72, 104], [Range(33, 126)], [Goto(20, [EndHead]), Goto(40, []), Goto(40, []), Goto(19, []), FAIL])
    case 40 => Row([58], [Range(33, 126)], [Goto(41, [EndHead]), Goto(19, []), FAIL])
    case 41 => Row([32, 58], [Range(33, 126)], [Goto(42, []), Goto(20, [EndHead]), Goto(19, []), FAIL])
    case 42 => Row([13], [Range(0, 47), Range(48, 57), Range(58, 127)], [Goto(23, [StartValue, EndValue]), Goto(22, [StartValue]), Goto(43, [StartValue, StartCl]), Goto(22, [StartValue]), FAIL])
    case 43 => Row([13], [Range(0, 47), Range(48, 57), Range(58, 127)], [Goto(23, [EndValue, EndCl]), Goto(22, []), Goto(43, []), Goto(22, []), FAIL])
    case 44 => Row([32], [], [Goto(10, [SetVersion(V11)]), FAIL])
    case 45 => Row([], [], [FAIL])
    case _ => Row([], [], [FAIL])
  }

  predicate KeyAt(r: Row, j: nat, c: int) {
    j < |r.keys| && r.keys[j] == c
  }

  predicate RangeAt(r: Row, j: nat, c: int) {
    j < |r.ranges| && r.ranges[j].lo <= c <= r.ranges[j].hi
  }

  /** What a scan of the row in order finds: the first key, else the first range, else nothing. */
  ghost predicate Finds(r: Row, c: int, i: nat) {
    && |r.gotos| == |r.keys| + |r.ranges| + 1
    && i < |r.gotos|
    && (forall j: nat {:trigger KeyAt(r, j, c)} :: KeyAt(r, j, c) ==> i <= j)
    && (i < |r.keys| ==> KeyAt(r, i, c))
    && (|r.keys| <= i ==> forall j: nat {:trigger RangeAt(r, j, c)} :: RangeAt(r, j, c) ==> i <= |r.keys| + j)
    && (|r.keys| <= i < |r.keys| + |r.ranges| ==> RangeAt(r, i - |r.keys|, c))
  }

  /** Keys and ranges in increasing order, so that a binary search finds what a scan would. */
  ghost predicate Sorted(r: Row) {
    && |r.gotos| == |r.keys| + |r.ranges| + 1
    && (forall i, j :: 0 <= i < j < |r.keys| ==> r.keys[i] < r.keys[j])
    && (forall i, j :: 0 <= i < j < |r.ranges| ==> r.ranges[i].hi < r.ranges[j].lo)
    && (forall i :: 0 <= i < |r.ranges| ==> r.ranges[i].lo <= r.ranges[i].hi)
  }

  function TableRow(k: Kind, cs: nat): Row {
    if k == Request then RequestRow(cs) else ResponseRow(cs)
  }

  lemma Look(r: Row, c: int)
    ensures KeyAt(r, 0, c) == (|r.keys| > 0 && r.keys[0] == c)
    ensures KeyAt(r, 1, c) == (|r.keys| > 1 && r.keys[1] == c)
    ensures KeyAt(r, 2, c) == (|r.keys| > 2 && r.keys[2] == c)
    ensures KeyAt(r, 3, c) == (|r.keys| > 3 && r.keys[3] == c)
    ensures KeyAt(r, 4, c) == (|r.keys| > 4 && r.keys[4] == c)
    ensures RangeAt(r, 0, c) == (|r.ranges| > 0 && r.ranges[0].lo <= c <= r.ranges[0].hi)
    ensures RangeAt(r, 1, c) == (|r.ranges| > 1 && r.ranges[1].lo <= c <= r.ranges[1].hi)
    ensures RangeAt(r, 2, c) == (|r.ranges| > 2 && r.ranges[2].lo <= c <= r.ranges[2].hi)
  {
  }

  lemma LookFurther(r: Row, c: int)
    ensures KeyAt(r, 5, c) == (|r.keys| > 5 && r.keys[5] == c)
    ensures KeyAt(r, 6, c) == (|r.keys| > 6 && r.keys[6] == c)
    ensures KeyAt(r, 7, c) == (|r.keys| > 7 && r.keys[7] == c)
    ensures KeyAt(r, 8, c) == (|r.keys| > 8 && r.keys[8] == c)
    ensures KeyAt(r, 9, c) == (|r.keys| > 9 && r.keys[9] == c)
    ensures KeyAt(r, 10, c) == (|r.keys| > 10 && r.keys[10] == c)
    ensures KeyAt(r, 11, c) == (|r.keys| > 11 && r.keys[11] == c)
    ensures KeyAt(r, 12, c) == (|r.keys| > 12 && r.keys[12] == c)
    ensures KeyAt(r, 13, c) == (|r.keys| > 13 && r.keys[13] == c)
  {
  }

  lemma Orders(r: Row)
    requires |r.gotos| == |r.keys| + |r.ranges| + 1 && |r.keys| <= 5 && |r.ranges| <= 3
    requires |r.keys| > 1 ==> r.keys[0] < r.keys[1]
    requires |r.keys| > 2 ==> r.keys[1] < r.keys[2]
    requires |r.keys| > 3 ==> r.keys[2] < r.keys[3]
    requires |r.keys| > 4 ==> r.keys[3] < r.keys[4]
    requires |r.ranges| > 1 ==> r.ranges[0].hi < r.ranges[1].lo
    requires |r.ranges| > 2 ==> r.ranges[1].hi < r.ranges[2].lo
    requires |r.ranges| > 0 ==> r.ranges[0].lo <= r.ranges[0].hi
    requires |r.ranges| > 1 ==> r.ranges[1].lo <= r.ranges[1].hi
    requires |r.ranges| > 2 ==> r.ranges[2].lo <= r.ranges[2].hi
    ensures Sorted(r)
  {
  }

  lemma RequestSorted2(cs: nat)
    requires 2 <= cs <= 21
    ensures Sorted(RequestRow(cs))
  {
    Orders(RequestRow(cs));
  }

  lemma RequestSorted22(cs: nat)
    requires 22 <= cs <= 48
    ensures Sorted(RequestRow(cs))
  {
    Orders(RequestRow(cs));
  }

  lemma RequestSorted49(cs: nat)
    requires 49 <= cs <= 65
    ensures Sorted(RequestRow(cs))
  {
    Orders(RequestRow(cs));
  }

  lemma RequestSorted66(cs: nat)
    requires 66 <= cs <= 81
    ensures Sorted(RequestRow(cs))
  {
    Orders(RequestRow(cs));
  }

  lemma ResponseSorted1(cs: nat)
    requires 1 <= cs <= 21
    ensures Sorted(ResponseRow(cs))
  {
    Orders(ResponseRow(cs));
  }

  lemma ResponseSorted22(cs: nat)
    requires 22 <= cs <= 45
    ensures Sorted(ResponseRow(cs))
  {
    Orders(ResponseRow(cs));
  }

  lemma RequestSorted1()
    ensures Sorted(RequestRow(1))
  {
  }

  lemma Request1(cs: nat, c: int, i: nat)
    requires cs == 1 && Finds(RequestRow(cs), c, i)
    ensures RequestRow(cs).gotos[i] == Delta(Request, cs, c)
  {
    Look(RequestRow(cs), c);
    LookFurther(RequestRow(cs), c);
  }

  lemma Request2(cs: nat, c: int, i: nat)
    requires 2 <= cs <= 8 && Finds(RequestRow(cs), c, i)
    ensures RequestRow(cs).gotos[i] == Delta(Request, cs, c)
  {
    Look(RequestRow(cs), c);
  }

  lemma Request9(cs: nat, c: int, i: nat)
    requires 9 <= cs <= 12 && Finds(RequestRow(cs), c, i)
    ensures RequestRow(cs).gotos[i] == Delta(Request, cs, c)
  {
    Look(RequestRow(cs), c);
  }

  lemma Request13(cs: nat, c: int, i: nat)
    requires 13 <= cs <= 16 && Finds(RequestRow(cs), c, i)
    ensures RequestRow(cs).gotos[i] == Delta(Request, cs, c)
  {
    Look(RequestRow(cs), c);
  }

  lemma Request17(cs: nat, c: int, i: nat)
    requires 17 <= cs <= 21 && Finds(RequestRow(cs), c, i)
    ensures RequestRow(cs).gotos[i] == Delta(Request, cs, c)
  {
    Look(RequestRow(cs), c);
  }

  lemma Request22(cs: nat, c: int, i: nat)
    requires 22 <= cs <= 26 && Finds(RequestRow(cs), c, i)
    ensures RequestRow(cs).gotos[i] == Delta(Request, cs, c)
  {
    Look(RequestRow(cs), c);
  }

  lemma Request27(cs: nat, c: int, i: nat)
    requires 27 <= cs <= 31 && Finds(RequestRow(cs), c, i)
    ensures RequestRow(cs).gotos[i] == Delta(Request, cs, c)
  {
    Look(RequestRow(cs), c);
  }

  lemma Request32(cs: nat, c: int, i: nat)
    requires 32 <= cs <= 36 && Finds(RequestRow(cs), c, i)
    ensures RequestRow(cs).gotos[i] == Delta(Request, cs, c)
  {
    Look(RequestRow(cs), c);
  }

  lemma Request37(cs: nat, c: int, i: nat)
    requires 37 <= cs <= 41 && Finds(RequestRow(cs), c, i)
    ensures RequestRow(cs).gotos[i] == Delta(Request, cs, c)
  {
    Look(RequestRow(cs), c);
  }

  lemma Request42(cs: nat, c: int, i: nat)
    requires 42 <= cs <= 48 && Finds(RequestRow(cs), c, i)
    ensures RequestRow(cs).gotos[i] == Delta(Request, cs, c)
  {
    Look(RequestRow(cs), c);
  }

  lemma Request49(cs: nat, c: int, i: nat)
    requires 49 <= cs <= 60 && Finds(RequestRow(cs), c, i)
    ensures RequestRow(cs).gotos[i] == Delta(Request, cs, c)
  {
    Look(RequestRow(cs), c);
  }

  lemma Request61(cs: nat, c: int, i: nat)
    requires 61 <= cs <= 69 && Finds(RequestRow(cs), c, i)
    ensures RequestRow(cs).gotos[i] == Delta(Request, cs, c)
  {
    Look(RequestRow(cs), c);
  }

  lemma Request70(cs: nat, c: int, i: nat)
    requires 70 <= cs <= 75 && Finds(RequestRow(cs), c, i)
    ensures RequestRow(cs).gotos[i] == Delta(Request, cs, c)
  {
    Look(RequestRow(cs), c);
  }

  lemma Request76(cs: nat, c: int, i: nat)
    requires 76 <= cs <= 81 && Finds(RequestRow(cs), c, i)
    ensures RequestRow(cs).gotos[i] == Delta(Request, cs, c)
  {
    Look(RequestRow(cs), c);
  }

  lemma Response1(cs: nat, c: int, i: nat)
    requires 1 <= cs <= 8 && Finds(ResponseRow(cs), c, i)
    ensures ResponseRow(cs).gotos[i] == Delta(Response, cs, c)
  {
    Look(ResponseRow(cs), c);
  }

  lemma Response9(cs: nat, c: int, i: nat)
    requires 9 <= cs <= 16 && Finds(ResponseRow(cs), c, i)
    ensures ResponseRow(cs).gotos[i] == Delta(Response, cs, c)
  {
    Look(ResponseRow(cs), c);
  }

  lemma Response17(cs: nat, c: int, i: nat)
    requires 17 <= cs <= 21 && Finds(ResponseRow(cs), c, i)
    ensures ResponseRow(cs).gotos[i] == Delta(Response, cs, c)
  {
    Look(ResponseRow(cs), c);
  }

  lemma Response22(cs: nat, c: int, i: nat)
    requires 22 <= cs <= 26 && Finds(ResponseRow(cs), c, i)
    ensures ResponseRow(cs).gotos[i] == Delta(Response, cs, c)
  {
    Look(ResponseRow(cs), c);
  }

  lemma Response27(cs: nat, c: int, i: nat)
    requires 27 <= cs <= 31 && Finds(ResponseRow(cs), c, i)
    ensures ResponseRow(cs).gotos[i] == Delta(Response, cs, c)
  {
    Look(ResponseRow(cs), c);
  }

  lemma Response32(cs: nat, c: int, i: nat)
    requires 32 <= cs <= 36 && Finds(ResponseRow(cs), c, i)
    ensures ResponseRow(cs).gotos[i] == Delta(Response, cs, c)
  {
    Look(ResponseRow(cs), c);
  }

  lemma Response37(cs: nat, c: int, i: nat)
    requires 37 <= cs <= 40 && Finds(ResponseRow(cs), c, i)
    ensures ResponseRow(cs).gotos[i] == Delta(Response, cs, c)
  {
    Look(ResponseRow(cs), c);
  }

  lemma Response41(cs: nat, c: int, i: nat)
    requires 41 <= cs <= 45 && Finds(ResponseRow(cs), c, i)
    ensures ResponseRow(cs).gotos[i] == Delta(Response, cs, c)
  {
    Look(ResponseRow(cs), c);
  }

  lemma RequestScan(cs: nat, c: int, i: nat)
    requires Finds(RequestRow(cs), c, i)
    ensures RequestRow(cs).gotos[i] == Delta(Request, cs, c)
  {
    if cs == 0 {
      Look(RequestRow(cs), c);
    } else if cs <= 1 {
      Request1(cs, c, i);
    } else if cs <= 8 {
      Request2(cs, c, i);
    } else if cs <= 12 {
      Request9(cs, c, i);
    } else if cs <= 16 {
      Request13(cs, c, i);
    } else if cs <= 21 {
      Request17(cs, c, i);
    } else if cs <= 26 {
      Request22(cs, c, i);
    } else if cs <= 31 {
      Request27(cs, c, i);
    } else if cs <= 36 {
      Request32(cs, c, i);
    } else if cs <= 41 {
      Request37(cs, c, i);
    } else if cs <= 48 {
      Request42(cs, c, i);
    } else if cs <= 60 {
      Request49(cs, c, i);
    } else if cs <= 69 {
      Request61(cs, c, i);
    } else if cs <= 75 {
      Request70(cs, c, i);
    } else if cs <= 81 {
      Request76(cs, c, i);
    } else {
      Look(RequestRow(cs), c);
    }
  }

  lemma ResponseScan(cs: nat, c: int, i: nat)
    requires Finds(ResponseRow(cs), c, i)
    ensures ResponseRow(cs).gotos[i] == Delta(Response, cs, c)
  {
    if cs == 0 {
      Look(ResponseRow(cs), c);
    } else if cs <= 8 {
      Response1(cs, c, i);
    } else if cs <= 16 {
      Response9(cs, c, i);
    } else if cs <= 21 {
      Response17(cs, c, i);
    } else if cs <= 26 {
      Response22(cs, c, i);
    } else if cs <= 31 {
      Response27(cs, c, i);
    } else if cs <= 36 {
      Response32(cs, c, i);
    } else if cs <= 40 {
      Response37(cs, c, i);
    } else if cs <= 45 {
      Response41(cs, c, i);
    } else {
      Look(ResponseRow(cs), c);
    }
  }

  /** In every state and for every character the tables say what the grammar says. */
  lemma ScanIsDelta(k: Kind, cs: nat, c: int, i: nat)
    requires Finds(TableRow(k, cs), c, i)
    ensures TableRow(k, cs).gotos[i] == Delta(k, cs, c)
  {
    if k == Request {
      RequestScan(cs, c, i);
    } else {
      ResponseScan(cs, c, i);
    }
  }

  lemma RowsSorted(k: Kind, cs: nat)
    ensures Sorted(TableRow(k, cs))
  {
    if k == Request {
      if cs == 1 {
        RequestSorted1();
      } else if 2 <= cs <= 21 {
        RequestSorted2(cs);
      } else if 22 <= cs <= 48 {
        RequestSorted22(cs);
      } else if 49 <= cs <= 65 {
        RequestSorted49(cs);
      } else if 66 <= cs <= 81 {
        RequestSorted66(cs);
      }
    } else if 1 <= cs <= 21 {
      ResponseSorted1(cs);
    } else if 22 <= cs <= 45 {
      ResponseSorted22(cs);
    }
  }

  /** The two binary searches of the generated parsers. */
  method Lookup(r: Row, c: int) returns (i: nat)
    requires Sorted(r)
    ensures Finds(r, c, i)
  {
    var lower, upper := 0, |r.keys| - 1;
    while lower <= upper
      invariant 0 <= lower <= |r.keys| && lower - 1 <= upper < |r.keys|
      invariant forall j: nat {:trigger KeyAt(r, j, c)} :: KeyAt(r, j, c) ==> lower <= j <= upper
      decreases upper - lower + 1
    {
      var mid := lower + (upper - lower) / 2;
      if c < r.keys[mid] {
        upper := mid - 1;
      } else if c > r.keys[mid] {
        lower := mid + 1;
      } else {
        return mid;
      }
    }
    lower, upper := 0, |r.ranges| - 1;
    while lower <= upper
      invariant 0 <= lower <= |r.ranges| && lower - 1 <= upper < |r.ranges|
      invariant forall j: nat {:trigger RangeAt(r, j, c)} :: RangeAt(r, j, c) ==> lower <= j <= upper
      decreases upper - lower + 1
    {
      var mid := lower + (upper - lower) / 2;
      if c < r.ranges[mid].lo {
        upper := mid - 1;
      } else if c > r.ranges[mid].hi {
        lower := mid + 1;
      } else {
        return |r.keys| + mid;
      }
    }
    return |r.keys| + |r.ranges|;
  }
}
