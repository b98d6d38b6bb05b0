/** The check that a configuration file is one JSON object with no repeated names and
    bounded depth, over the tokens that the decoder hands out. */
module JsonFacts {
  import opened Wrappers
  import opened Paths

  const MAX_DEPTH := 64

  /** What Decoder.Token can return; a number, a boolean and null are alike here. */
  datatype Token = OpenObject | CloseObject | OpenArray | CloseArray | Text(text: string) | Scalar

  /** Why there are no more tokens. */
  datatype End = Eof | Malformed

  /** A whole input as the lexer sees it. */
  datatype Lexed = Lexed(tokens: seq<Token>, end: End)

  predicate Closing(token: Token) { token == CloseObject || token == CloseArray }

  // ---- values and their printings -------------------------------------------

  datatype Value = Atom | String(text: string) | Object(members: Members) | Array(items: Items)
  datatype Members = NoMembers | Member(name: string, value: Value, others: Members)
  datatype Items = NoItems | Item(value: Value, others: Items)

  function Print(v: Value): seq<Token> {
    match v
    case Atom => [Scalar]
    case String(text) => [Text(text)]
    case Object(members) => [OpenObject] + PrintMembers(members) + [CloseObject]
    case Array(items) => [OpenArray] + PrintItems(items) + [CloseArray]
  }

  function PrintMembers(ms: Members): seq<Token> {
    match ms
    case NoMembers => []
    case Member(name, value, others) => [Text(name)] + Print(value) + PrintMembers(others)
  }

  function PrintItems(items: Items): seq<Token> {
    match items
    case NoItems => []
    case Item(value, others) => Print(value) + PrintItems(others)
  }

  function Names(ms: Members): set<string> {
    if ms.NoMembers? then {} else {ms.name} + Names(ms.others)
  }

  /** No object inside v, nor v itself, repeats a name. */
  predicate Unambiguous(v: Value) {
    match v
    case Atom => true
    case String(_) => true
    case Object(members) => UnambiguousMembers(members)
    case Array(items) => UnambiguousItems(items)
  }

  predicate UnambiguousMembers(ms: Members) {
    ms.Member? ==> Unambiguous(ms.value) && ms.name !in Names(ms.others) && UnambiguousMembers(ms.others)
  }

  predicate UnambiguousItems(items: Items) {
    items.Item? ==> Unambiguous(items.value) && UnambiguousItems(items.others)
  }

  function Max(a: nat, b: nat): nat { if a < b then b else a }

  /** How deep the deepest value inside v sits, v itself being at depth 0. */
  function Depth(v: Value): nat {
    match v
    case Atom => 0
    case String(_) => 0
    case Object(members) => MembersDepth(members)
    case Array(items) => ItemsDepth(items)
  }

  function MembersDepth(ms: Members): nat {
    if ms.NoMembers? then 0 else Max(1 + Depth(ms.value), MembersDepth(ms.others))
  }

  function ItemsDepth(items: Items): nat {
    if items.NoItems? then 0 else Max(1 + Depth(items.value), ItemsDepth(items.others))
  }

  // ---- the check as a function ----------------------------------------------

  /** The tokens left once the value that starts with token is read, or None. */
  function ReadValue(token: Token, left: seq<Token>, depth: nat): (r: Option<seq<Token>>)
    ensures r.Some? ==> |r.value| <= |left|
    decreases |left|, 1
  {
    if depth > MAX_DEPTH then None
    else match token
      case OpenObject => ReadMembers(left, depth, {})
      case OpenArray => ReadItems(left, depth)
      case Text(_) => Some(left)
      case Scalar => Some(left)
      case _ => None
  }

  function ReadMembers(left: seq<Token>, depth: nat, seen: set<string>): (r: Option<seq<Token>>)
    ensures r.Some? ==> |r.value| <= |left|
    decreases |left|, 0
  {
    if left == [] then None
    else if Closing(left[0]) then if left[0] == CloseObject then Some(left[1..]) else None
    else if !left[0].Text? || left[0].text in seen || |left| == 1 then None
    else match ReadValue(left[1], left[2..], depth + 1)
      case None => None
      case Some(after) => ReadMembers(after, depth, seen + {left[0].text})
  }

  function ReadItems(left: seq<Token>, depth: nat): (r: Option<seq<Token>>)
    ensures r.Some? ==> |r.value| <= |left|
    decreases |left|, 0
  {
    if left == [] then None
    else if Closing(left[0]) then if left[0] == CloseArray then Some(left[1..]) else None
    else match ReadValue(left[0], left[1..], depth + 1)
      case None => None
      case Some(after) => ReadItems(after, depth)
  }

  /** factsJSONObject. */
  predicate JSONObject(raw: string, lexed: Lexed) {
    && raw != "" && ValidUtf8(raw)
    && lexed.tokens != [] && lexed.tokens[0] == OpenObject
    && ReadValue(OpenObject, lexed.tokens[1..], 0) == Some([])
    && lexed.end == Eof
  }

  // ---- what it accepts ------------------------------------------------------

  lemma MemberJoins(ms: Members, end: seq<Token>)
    requires ms.Member?
    ensures PrintMembers(ms) + end == [Text(ms.name)] + (Print(ms.value) + (PrintMembers(ms.others) + end))
  {
  }

  lemma SplitHead(name: string, value: seq<Token>, tail: seq<Token>)
    requires value != []
    ensures var left := [Text(name)] + (value + tail);
      left[0] == Text(name) && left[1] == value[0] && left[2..] == value[1..] + tail
  {
  }

  lemma ItemJoins(items: Items, end: seq<Token>)
    requires items.Item?
    ensures PrintItems(items) + end == Print(items.value) + (PrintItems(items.others) + end)
  {
  }

  lemma BracketJoins(open: Token, inside: seq<Token>, close: Token, after: seq<Token>)
    ensures ([open] + inside + [close])[1..] + after == inside + ([close] + after)
    ensures ([open] + inside + [close])[0] == open
  {
  }

  /** Everything read is the printing of a value within bounds. */
  lemma {:induction false} ReadsOnlyPrintings(token: Token, left: seq<Token>, depth: nat)
    returns (v: Value)
    requires ReadValue(token, left, depth).Some?
    ensures [token] + left == Print(v) + ReadValue(token, left, depth).value
    ensures Unambiguous(v) && depth + Depth(v) <= MAX_DEPTH
    decreases |left|, 1
  {
    match token
    case OpenObject =>
      var ms := ReadsOnlyMembers(left, depth, {});
      v := Object(ms);
    case OpenArray =>
      var items := ReadsOnlyItems(left, depth);
      v := Array(items);
    case Text(text) => v := String(text);
    case Scalar => v := Atom;
  }

  lemma {:induction false} ReadsOnlyMembers(left: seq<Token>, depth: nat, seen: set<string>)
    returns (ms: Members)
    requires depth <= MAX_DEPTH && ReadMembers(left, depth, seen).Some?
    ensures left == PrintMembers(ms) + ([CloseObject] + ReadMembers(left, depth, seen).value)
    ensures UnambiguousMembers(ms) && Names(ms) !! seen && depth + MembersDepth(ms) <= MAX_DEPTH
    decreases |left|, 0
  {
    if Closing(left[0]) {
      ms := NoMembers;
    } else {
      var v := ReadsOnlyPrintings(left[1], left[2..], depth + 1);
      var after := ReadValue(left[1], left[2..], depth + 1).value;
      var others := ReadsOnlyMembers(after, depth, seen + {left[0].text});
      ms := Member(left[0].text, v, others);
      assert left == [left[0]] + ([left[1]] + left[2..]);
      assert left == [left[0]] + (Print(v) + after);
      MemberJoins(ms, [CloseObject] + ReadMembers(left, depth, seen).value);
    }
  }

  lemma {:induction false} ReadsOnlyItems(left: seq<Token>, depth: nat) returns (items: Items)
    requires depth <= MAX_DEPTH && ReadItems(left, depth).Some?
    ensures left == PrintItems(items) + ([CloseArray] + ReadItems(left, depth).value)
    ensures UnambiguousItems(items) && depth + ItemsDepth(items) <= MAX_DEPTH
    decreases |left|, 0
  {
    if Closing(left[0]) {
      items := NoItems;
    } else {
      var v := ReadsOnlyPrintings(left[0], left[1..], depth + 1);
      var after := ReadValue(left[0], left[1..], depth + 1).value;
      var others := ReadsOnlyItems(after, depth);
      items := Item(v, others);
      assert left == [left[0]] + left[1..];
      assert left == Print(v) + after;
      ItemJoins(items, [CloseArray] + ReadItems(left, depth).value);
    }
  }

  /** Every printing within bounds is read, up to exactly its end. */
  lemma {:induction false} ReadsEveryPrinting(v: Value, after: seq<Token>, depth: nat)
    requires Unambiguous(v) && depth + Depth(v) <= MAX_DEPTH
    ensures Print(v) != [] && !Closing(Print(v)[0])
    ensures ReadValue(Print(v)[0], Print(v)[1..] + after, depth) == Some(after)
    decreases v, 1
  {
    match v
    case Object(ms) =>
      ReadsEveryMember(ms, after, depth, {});
      BracketJoins(OpenObject, PrintMembers(ms), CloseObject, after);
    case Array(items) =>
      ReadsEveryItem(items, after, depth);
      BracketJoins(OpenArray, PrintItems(items), CloseArray, after);
    case _ =>
      assert Print(v)[1..] + after == after;
  }

  lemma {:induction false} ReadsEveryMember(ms: Members, after: seq<Token>, depth: nat, seen: set<string>)
    requires UnambiguousMembers(ms) && Names(ms) !! seen && depth + MembersDepth(ms) <= MAX_DEPTH
    ensures ReadMembers(PrintMembers(ms) + ([CloseObject] + after), depth, seen) == Some(after)
    decreases ms, 0
  {
    var left := PrintMembers(ms) + ([CloseObject] + after);
    if ms.NoMembers? {
      assert left == [CloseObject] + after;
    } else {
      var tail := PrintMembers(ms.others) + ([CloseObject] + after);
      ReadsEveryPrinting(ms.value, tail, depth + 1);
      ReadsEveryMember(ms.others, after, depth, seen + {ms.name});
      MemberJoins(ms, [CloseObject] + after);
      SplitHead(ms.name, Print(ms.value), tail);
    }
  }

  lemma {:induction false} ReadsEveryItem(items: Items, after: seq<Token>, depth: nat)
    requires UnambiguousItems(items) && depth + ItemsDepth(items) <= MAX_DEPTH
    ensures ReadItems(PrintItems(items) + ([CloseArray] + after), depth) == Some(after)
    decreases items, 0
  {
    var left := PrintItems(items) + ([CloseArray] + after);
    if items.NoItems? {
      assert left == [CloseArray] + after;
    } else {
      var tail := PrintItems(items.others) + ([CloseArray] + after);
      ReadsEveryPrinting(items.value, tail, depth + 1);
      ReadsEveryItem(items.others, after, depth);
      ItemJoins(items, [CloseArray] + after);
      assert left[1..] == Print(items.value)[1..] + tail;
    }
  }

  /** The documents the check is for. */
  ghost predicate Prints(tokens: seq<Token>, ms: Members) {
    tokens == Print(Object(ms)) && UnambiguousMembers(ms) && MembersDepth(ms) <= 64
  }

  /** Accepted: exactly the printings of one object, whole, that repeats no name at any
      level and keeps every value, scalars too, at depth 64 or less. */
  lemma AcceptsExactlyOneObject(raw: string, lexed: Lexed)
    ensures JSONObject(raw, lexed)
       <==> raw != "" && ValidUtf8(raw) && lexed.end == Eof && exists ms :: Prints(lexed.tokens, ms)
  {
    var tokens := lexed.tokens;
    if JSONObject(raw, lexed) {
      var v := ReadsOnlyPrintings(OpenObject, tokens[1..], 0);
      assert tokens == [OpenObject] + tokens[1..] == Print(v);
      assert Prints(tokens, v.members);
    }
    if ms :| Prints(tokens, ms) {
      ReadsEveryPrinting(Object(ms), [], 0);
      assert tokens[1..] + [] == tokens[1..];
    }
  }

  /** Two objects with the same printing are the same object: what is accepted has one
      reading only. */
  lemma {:induction false} OnePrintingOneValue(v: Value, w: Value, x: seq<Token>, y: seq<Token>)
    requires Print(v) + x == Print(w) + y
    ensures v == w && x == y
    decreases v, 1
  {
    assert (Print(v) + x)[0] == Print(v)[0] && (Print(w) + y)[0] == Print(w)[0];
    match v
    case Object(ms) =>
      assert (Print(v) + x)[1..] == PrintMembers(ms) + ([CloseObject] + x);
      assert (Print(w) + y)[1..] == PrintMembers(w.members) + ([CloseObject] + y);
      OnePrintingOneList(ms, w.members, x, y);
    case Array(items) =>
      assert (Print(v) + x)[1..] == PrintItems(items) + ([CloseArray] + x);
      assert (Print(w) + y)[1..] == PrintItems(w.items) + ([CloseArray] + y);
      OnePrintingOneRow(items, w.items, x, y);
    case _ =>
      assert (Print(v) + x)[1..] == x && (Print(w) + y)[1..] == y;
  }

  lemma {:induction false} OnePrintingOneList(ms: Members, ns: Members, x: seq<Token>, y: seq<Token>)
    requires PrintMembers(ms) + ([CloseObject] + x) == PrintMembers(ns) + ([CloseObject] + y)
    ensures ms == ns && x == y
    decreases ms, 0
  {
    var p := PrintMembers(ms) + ([CloseObject] + x);
    var q := PrintMembers(ns) + ([CloseObject] + y);
    assert ms.NoMembers? ==> p[0] == CloseObject && p[1..] == x;
    assert ns.NoMembers? ==> q[0] == CloseObject && q[1..] == y;
    if ms.Member? && ns.Member? {
      assert p[0] == Text(ms.name) && q[0] == Text(ns.name);
      var xs, ys := PrintMembers(ms.others) + ([CloseObject] + x), PrintMembers(ns.others) + ([CloseObject] + y);
      assert p[1..] == Print(ms.value) + xs && q[1..] == Print(ns.value) + ys;
      OnePrintingOneValue(ms.value, ns.value, xs, ys);
      OnePrintingOneList(ms.others, ns.others, x, y);
    }
  }

  lemma ItemStarts(items: Items, end: seq<Token>)
    requires items.Item?
    ensures var all := PrintItems(items) + end;
      all == Print(items.value) + (PrintItems(items.others) + end) && all[0] != CloseArray
  {
    ItemJoins(items, end);
    assert (PrintItems(items) + end)[0] == Print(items.value)[0];
  }

  lemma {:induction false} OnePrintingOneRow(items: Items, others: Items, x: seq<Token>, y: seq<Token>)
    requires PrintItems(items) + ([CloseArray] + x) == PrintItems(others) + ([CloseArray] + y)
    ensures items == others && x == y
    decreases items, 0
  {
    var p := PrintItems(items) + ([CloseArray] + x);
    var q := PrintItems(others) + ([CloseArray] + y);
    assert items.NoItems? ==> p[0] == CloseArray && p[1..] == x;
    assert others.NoItems? ==> q[0] == CloseArray && q[1..] == y;
    if items.Item? { ItemStarts(items, [CloseArray] + x); }
    if others.Item? { ItemStarts(others, [CloseArray] + y); }
    if items.Item? && others.Item? {
      var xs, ys := PrintItems(items.others) + ([CloseArray] + x), PrintItems(others.others) + ([CloseArray] + y);
      OnePrintingOneValue(items.value, others.value, xs, ys);
      OnePrintingOneRow(items.others, others.others, x, y);
    }
  }

  // ---- the recursive check over a stateful decoder --------------------------

  class Decoder {
    const lexed: Lexed
    var pos: nat

    ghost predicate Valid() reads this { pos <= |lexed.tokens| }

    ghost function Left(): seq<Token> reads this requires Valid() { lexed.tokens[pos..] }

    constructor (lexed: Lexed)
      ensures Valid() && this.lexed == lexed && Left() == lexed.tokens
    {
      this.lexed := lexed;
      pos := 0;
    }

    predicate More()
      reads this
      requires Valid()
    {
      pos < |lexed.tokens| && !Closing(lexed.tokens[pos])
    }

    method Token() returns (r: Result<Token, End>)
      requires Valid()
      modifies this
      ensures Valid()
      ensures old(Left()) == [] ==> r == Err(lexed.end) && Left() == []
      ensures old(Left()) != [] ==> r == Ok(old(Left())[0]) && Left() == old(Left())[1..]
    {
      if pos == |lexed.tokens| {
        return Err(lexed.end);
      }
      r := Ok(lexed.tokens[pos]);
      pos := pos + 1;
    }

    /** The closure that calls itself on every nested value. */
    method Value(token: Token, depth: nat) returns (ok: bool)
      requires Valid()
      modifies this
      ensures Valid()
      ensures var read := ReadValue(token, old(Left()), depth);
        ok == read.Some? && (ok ==> Left() == read.value)
      decreases |lexed.tokens| - pos, 1
    {
      if depth > MAX_DEPTH {
        return false;
      }
      match token {
        case OpenObject => ok := ObjectBody(depth);
        case OpenArray => ok := ArrayBody(depth);
        case CloseObject => ok := false;
        case CloseArray => ok := false;
        case _ => ok := true;
      }
    }

    method ObjectBody(depth: nat) returns (ok: bool)
      requires Valid()
      modifies this
      ensures Valid()
      ensures var read := ReadMembers(old(Left()), depth, {});
        ok == read.Some? && (ok ==> Left() == read.value)
      decreases |lexed.tokens| - pos, 0
    {
      var seen: set<string> := {};
      while More()
        invariant Valid() && pos >= old(pos)
        invariant ReadMembers(old(Left()), depth, {}) == ReadMembers(Left(), depth, seen)
        decreases |lexed.tokens| - pos
      {
        ghost var before := Left();
        var key := Token();
        if key.Err? || !key.value.Text? || key.value.text in seen {
          return false;
        }
        var name := key.value.text;
        var next := Token();
        if next.Err? {
          return false;
        }
        assert before == [Text(name)] + ([next.value] + Left());
        ok := Value(next.value, depth + 1);
        if !ok {
          return false;
        }
        seen := seen + {name};
      }
      var end := Token();
      ok := end == Ok(CloseObject);
    }

    method ArrayBody(depth: nat) returns (ok: bool)
      requires Valid()
      modifies this
      ensures Valid()
      ensures var read := ReadItems(old(Left()), depth);
        ok == read.Some? && (ok ==> Left() == read.value)
      decreases |lexed.tokens| - pos, 0
    {
      while More()
        invariant Valid() && pos >= old(pos)
        invariant ReadItems(old(Left()), depth) == ReadItems(Left(), depth)
        decreases |lexed.tokens| - pos
      {
        var next := Token();
        ok := Value(next.value, depth + 1);
        if !ok {
          return false;
        }
      }
      var end := Token();
      ok := end == Ok(CloseArray);
    }
  }

  /** It ends on every token stream, and its answer means what AcceptsExactlyOneObject
      says. */
  method CheckJSONObject(raw: string, lexed: Lexed) returns (ok: bool)
    ensures ok == JSONObject(raw, lexed)
    ensures ok <==> raw != "" && ValidUtf8(raw) && lexed.end == Eof && exists ms :: Prints(lexed.tokens, ms)
  {
    AcceptsExactlyOneObject(raw, lexed);
    if !ValidUtf8(raw) || raw == "" {
      return false;
    }
    var decoder := new Decoder(lexed);
    var first := decoder.Token();
    if first != Ok(OpenObject) {
      return false;
    }
    ok := decoder.Value(first.value, 0);
    if ok {
      var last := decoder.Token();
      ok := last == Err(Eof);
    }
  }
}
