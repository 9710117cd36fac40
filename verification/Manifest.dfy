/** Reading and editing one scalar of a YAML tree by a dotted path: GetField and SetField. */
module Manifests {
  import opened Contracts
  import opened Text

  datatype Kind = DocumentNode | SequenceNode | MappingNode | ScalarNode | AliasNode

  /** A yaml.Node; a mapping alternates keys and values in `content`. */
  datatype Node = Node(kind: Kind, value: string, tag: string, content: seq<Node>)

  datatype PathError = NotMapping | KeyNotFound | NotSequence | NoSuchItem | NotScalar

  /** Where a node lies below another: child indices. */
  type Address = seq<nat>

  function SplitPath(path: string): seq<string> { NonEmpty(Split(path, '.')) }

  function NonEmpty(parts: seq<string>): seq<string> {
    if parts == [] then []
    else NonEmpty(parts[..|parts| - 1])
         + if TrimSpace(parts[|parts| - 1]) == [] then [] else [TrimSpace(parts[|parts| - 1])]
  }

  /** The loop of splitPath. */
  method SplitFieldPath(path: string) returns (parts: seq<string>)
    ensures parts == SplitPath(path)
  {
    parts := [];
    var pieces := Split(path, '.');
    for i := 0 to |pieces|
      invariant parts == NonEmpty(pieces[..i])
    {
      assert pieces[..i + 1][..i] == pieces[..i];
      var p := TrimSpace(pieces[i]);
      if p != "" {
        parts := parts + [p];
      }
    }
    assert pieces[..|pieces|] == pieces;
  }

  /** What splitPath returns: parts that are not empty, trimmed and free of dots. */
  predicate PlainPart(p: string) { p != [] && Trimmed(p) && '.' !in p }

  lemma {:induction false} NonEmptyIsPlain(pieces: seq<string>)
    requires forall p <- pieces :: '.' !in p
    ensures forall p <- NonEmpty(pieces) :: PlainPart(p)
    ensures (forall p <- pieces :: PlainPart(p)) ==> NonEmpty(pieces) == pieces
  {
    if pieces != [] {
      var front, last := pieces[..|pieces| - 1], pieces[|pieces| - 1];
      NonEmptyIsPlain(front);
      TrimSpaceTrims(last);
      assert pieces == front + [last];
      if forall p <- pieces :: PlainPart(p) {
        assert PlainPart(last);
        assert forall p <- front :: p in pieces;
      }
    }
  }

  /** splitPath inverts joining with dots exactly for lists of plain parts. */
  lemma SplitPathInvertsJoin(parts: seq<string>)
    ensures SplitPath(Join(parts, '.')) == parts <==> forall p <- parts :: PlainPart(p)
  {
    var pieces := Split(Join(parts, '.'), '.');
    SplitParts(Join(parts, '.'), '.');
    NonEmptyIsPlain(pieces);
    if parts == [] {
      assert pieces == [[]];
      assert NonEmpty([[]]) == NonEmpty([]) + [];
    } else if forall p <- parts :: PlainPart(p) {
      SplitJoin(parts, '.');
    }
  }

  /** parseArraySelector: "key[name=value]" as (key, value), None for everything else. */
  function ParseArraySelector(part: string): Option<(string, string)> {
    match IndexOf(part, '[')
    case None => None
    case Some(i) =>
      IndexOfBound(part, '[');
      var inner := TrimSuffix(part[i + 1..], "]");
      match IndexOf(inner, '=')
      case None => None
      case Some(j) =>
        IndexOfBound(inner, '=');
        if inner[..j] != "name" then None else Some((part[..i], inner[j + 1..]))
  }

  function Selector(key: string, value: string): string { key + "[name=" + value + "]" }

  /** Parsing inverts building a selector, for any key without a bracket and any value at all. */
  lemma ParseInvertsSelector(key: string, value: string)
    requires '[' !in key
    ensures ParseArraySelector(Selector(key, value)) == Some((key, value))
  {
    var part := Selector(key, value);
    assert part == key + ['['] + ("name=" + value + "]");
    IndexOfFirst(key, "name=" + value + "]", '[');
    assert part[..|key|] == key && part[|key| + 1..] == "name=" + value + "]";
    var inner := "name=" + value;
    assert ("name=" + value + "]")[|inner|..] == "]" && ("name=" + value + "]")[..|inner|] == inner;
    assert inner == "name" + ['='] + value;
    IndexOfFirst("name", value, '=');
    assert inner[..4] == "name" && inner[5..] == value;
  }

  /** Only "key[name=value]" is a selector; the last bracket may be missing. */
  lemma ParseSelectorIff(part: string, key: string, value: string)
    ensures ParseArraySelector(part) == Some((key, value)) <==>
              && '[' !in key
              && (part == Selector(key, value) || (part == key + "[name=" + value && !HasSuffix(value, "]")))
  {
    if '[' !in key && part == Selector(key, value) {
      ParseInvertsSelector(key, value);
    } else if '[' !in key && part == key + "[name=" + value && !HasSuffix(value, "]") {
      ParseOpenSelector(key, value);
    } else if ParseArraySelector(part) == Some((key, value)) {
      SelectorParts(part, key, value);
    }
  }

  lemma ParseOpenSelector(key: string, value: string)
    requires '[' !in key && !HasSuffix(value, "]")
    ensures ParseArraySelector(key + "[name=" + value) == Some((key, value))
  {
    hide HasSuffix;
    var part, inner := key + "[name=" + value, "name=" + value;
    assert part == key + ['['] + inner;
    IndexOfFirst(key, inner, '[');
    assert part[..|key|] == key && part[|key| + 1..] == inner;
    assert inner[|inner| - 1] == if value == "" then '=' else value[|value| - 1];
    OneSuffix(inner);
    OneSuffix(value);
    assert inner == "name" + ['='] + value;
    IndexOfFirst("name", value, '=');
    assert inner[..4] == "name" && inner[5..] == value;
  }

  lemma OneSuffix(s: string)
    ensures HasSuffix(s, "]") <==> s != "" && s[|s| - 1] == ']'
  {}

  lemma {:induction false} IndexOfSplits(s: string, c: char)
    requires IndexOf(s, c).Some?
    ensures IndexOf(s, c).value < |s| && s[IndexOf(s, c).value] == c && c !in s[..IndexOf(s, c).value]
  {
    if s[0] != c {
      IndexOfSplits(s[1..], c);
      var i := IndexOf(s, c).value;
      assert s[..i] == [s[0]] + s[1..][..i - 1];
    }
  }

  lemma IndexOfParts(s: string, c: char) returns (before: string, after: string)
    requires IndexOf(s, c).Some?
    ensures s == before + [c] + after && c !in before
    ensures IndexOf(s, c).value < |s| && s[..IndexOf(s, c).value] == before && s[IndexOf(s, c).value + 1..] == after
  {
    hide IndexOf;
    IndexOfSplits(s, c);
    var i := IndexOf(s, c).value;
    before, after := s[..i], s[i + 1..];
  }

  /** What parsing takes apart: the text after the bracket, without a closing one, names the item. */
  lemma SelectorInner(part: string, key: string, value: string) returns (rest: string)
    requires ParseArraySelector(part) == Some((key, value))
    ensures '[' !in key && part == key + "[" + rest && TrimSuffix(rest, "]") == "name=" + value
  {
    hide IndexOf, TrimSuffix;
    var before, after := IndexOfParts(part, '[');
    var name, inner := IndexOfParts(TrimSuffix(after, "]"), '=');
    rest := after;
    assert "name" + ['='] + value == "name=" + value;
  }

  lemma SelectorParts(part: string, key: string, value: string)
    requires ParseArraySelector(part) == Some((key, value))
    ensures '[' !in key
    ensures part == Selector(key, value) || (part == key + "[name=" + value && !HasSuffix(value, "]"))
  {
    hide ParseArraySelector, HasSuffix;
    var rest := SelectorInner(part, key, value);
    Closed(rest, value);
    if HasSuffix(rest, "]") {
      assert key + "[" + ("name=" + value + "]") == Selector(key, value);
    } else {
      assert key + "[" + ("name=" + value) == key + "[name=" + value;
    }
  }

  lemma Closed(rest: string, value: string)
    requires TrimSuffix(rest, "]") == "name=" + value
    ensures HasSuffix(rest, "]") ==> rest == "name=" + value + "]"
    ensures !HasSuffix(rest, "]") ==> rest == "name=" + value && !HasSuffix(value, "]")
  {
    OneSuffix(rest);
    OneSuffix(value);
    assert ("name=" + value)[|value| + 4] == if value == "" then '=' else value[|value| - 1];
  }

  /** findMappingValue from position i on: the index of the value of the first such key. */
  function FindValue(content: seq<Node>, key: string, i: nat): (index: Option<nat>)
    ensures index.Some? ==> i < index.value < |content| && content[index.value - 1].value == key
    decreases |content| - i
  {
    if i + 1 >= |content| then None
    else if content[i].value == key then Some(i + 1)
    else FindValue(content, key, i + 2)
  }

  /** A key at a key position is found, and the first such position counts. */
  lemma {:induction false} FindValueIff(content: seq<Node>, key: string, i: nat, k: nat)
    requires i % 2 == 0
    ensures FindValue(content, key, i) == Some(k) <==>
              && i < k < |content| && k % 2 == 1 && content[k - 1].value == key
              && forall j :: i <= j < k - 1 && j % 2 == 0 ==> content[j].value != key
    decreases |content| - i
  {
    if i + 1 < |content| && content[i].value != key {
      FindValueIff(content, key, i + 2, k);
    }
  }

  function MappingValue(mapping: Node, key: string): (index: Option<nat>)
    ensures index.Some? ==> 0 < index.value < |mapping.content| && mapping.content[index.value - 1].value == key
  {
    FindValue(mapping.content, key, 0)
  }

  /** The name by which a selector knows an item. */
  function ItemName(item: Node): Option<string> {
    if item.kind != MappingNode then None
    else match MappingValue(item, "name") case None => None case Some(k) => Some(item.content[k].value)
  }

  /** findItemByName from position i on. */
  function FindItem(items: seq<Node>, name: string, i: nat): (index: Option<nat>)
    ensures index.Some? ==> i <= index.value < |items| && ItemName(items[index.value]) == Some(name)
    decreases |items| - i
  {
    if i >= |items| then None
    else if ItemName(items[i]) == Some(name) then Some(i)
    else FindItem(items, name, i + 1)
  }

  /** The first item of that name is found. */
  lemma {:induction false} FindItemIff(items: seq<Node>, name: string, i: nat, k: nat)
    ensures FindItem(items, name, i) == Some(k) <==>
              && i <= k < |items| && ItemName(items[k]) == Some(name)
              && forall j :: i <= j < k ==> ItemName(items[j]) != Some(name)
    decreases |items| - i
  {
    hide ItemName;
    if i < |items| && ItemName(items[i]) != Some(name) {
      FindItemIff(items, name, i + 1, k);
    }
  }

  /** One part of a path: from a node to the child or item that the part names. */
  function Enter(node: Node, part: string): (step: Result<Address, PathError>)
    ensures step.Ok? ==> step.value != [] && ValidAddress(node, step.value)
  {
    var selector := ParseArraySelector(part);
    var key := if selector.Some? then selector.value.0 else part;
    if node.kind != MappingNode then Err(NotMapping)
    else match MappingValue(node, key)
      case None => Err(KeyNotFound)
      case Some(i) =>
        if selector == None then Ok([i])
        else if node.content[i].kind != SequenceNode then Err(NotSequence)
        else match FindItem(node.content[i].content, selector.value.1, 0)
          case None => Err(NoSuchItem)
          case Some(j) => Ok([i, j])
  }

  /** Why a part of a path leads nowhere. */
  lemma EnterErrors(node: Node, part: string)
    ensures var selector := ParseArraySelector(part);
            var key := if selector.Some? then selector.value.0 else part;
            var at, step := MappingValue(node, key), Enter(node, part);
            && (step == Err(NotMapping) <==> node.kind != MappingNode)
            && (step == Err(KeyNotFound) <==> node.kind == MappingNode && at == None)
            && (step == Err(NotSequence) <==>
                  && node.kind == MappingNode && at.Some? && selector.Some?
                  && node.content[at.value].kind != SequenceNode)
            && (step == Err(NoSuchItem) <==>
                  && node.kind == MappingNode && at.Some? && selector.Some?
                  && node.content[at.value].kind == SequenceNode
                  && forall item <- node.content[at.value].content :: ItemName(item) != Some(selector.value.1))
            && step != Err(NotScalar)
  {
    hide ParseArraySelector, ItemName, ValidAddress;
    var selector := ParseArraySelector(part);
    var at := MappingValue(node, if selector.Some? then selector.value.0 else part);
    if at.Some? && selector.Some? {
      NoItemIff(node.content[at.value].content, selector.value.1, 0);
    }
  }

  lemma {:induction false} NoItemIff(items: seq<Node>, name: string, i: nat)
    requires i <= |items|
    ensures FindItem(items, name, i) == None <==> forall k :: i <= k < |items| ==> ItemName(items[k]) != Some(name)
    decreases |items| - i
  {
    hide ItemName;
    if i < |items| {
      NoItemIff(items, name, i + 1);
    }
  }

  predicate ValidAddress(node: Node, a: Address)
    decreases |a|
  {
    a == [] || (a[0] < |node.content| && ValidAddress(node.content[a[0]], a[1..]))
  }

  function At(node: Node, a: Address): Node
    requires ValidAddress(node, a)
    decreases |a|
  {
    if a == [] then node else At(node.content[a[0]], a[1..])
  }

  /** The tree after an assignment to the fields of the node at an address. */
  function Assign(node: Node, a: Address, x: Node): Node
    requires ValidAddress(node, a)
    decreases |a|
  {
    if a == [] then x else node.(content := node.content[a[0] := Assign(node.content[a[0]], a[1..], x)])
  }

  /** navigatePath, yielding where the node lies. */
  function Navigate(node: Node, parts: seq<string>): (found: Result<Address, PathError>)
    ensures found.Ok? ==> ValidAddress(node, found.value)
    decreases |parts|
  {
    if parts == [] then Ok([])
    else
      match Enter(node, parts[0])
      case Err(e) => Err(e)
      case Ok(step) =>
        match Navigate(At(node, step), parts[1..])
        case Err(e) => Err(e)
        case Ok(rest) => Concat(node, step, rest); Ok(step + rest)
  }

  lemma {:induction false} Concat(node: Node, a: Address, b: Address)
    requires ValidAddress(node, a) && ValidAddress(At(node, a), b)
    ensures ValidAddress(node, a + b) && At(node, a + b) == At(At(node, a), b)
    ensures forall x :: Assign(node, a + b, x) == Assign(node, a, Assign(At(node, a), b, x))
    decreases |a|
  {
    if a == [] {
      assert a + b == b;
    } else {
      assert (a + b)[1..] == a[1..] + b && (a + b)[0] == a[0];
      Concat(node.content[a[0]], a[1..], b);
    }
  }

  /** fmt.Sscanf(s, "%d", ...) succeeds: spaces, a sign, digits that fit 64 bits, then anything. */
  predicate ScansAsInt(s: string) {
    if s == [] then false
    else if IsSpace(s[0]) then s[0] != '\n' && ScansAsInt(s[1..])
    else if s[0] == '-' || s[0] == '+' then Signed(s[0] == '-', LeadingDigits(s[1..])).Some?
    else Signed(false, LeadingDigits(s)).Some?
  }

  function LeadingDigits(s: string): string {
    if s == [] || !IsDigit(s[0]) then [] else [s[0]] + LeadingDigits(s[1..])
  }

  /** The text is white space without a line break, a sign or none, digits that fit 64 bits, and a rest that
      does not start with a digit. */
  ghost predicate ReadsInt(s: string, space: string, sign: string, digits: string, rest: string) {
    && s == space + sign + digits + rest
    && (forall c <- space :: IsSpace(c) && c != '\n') && sign in {"", "-", "+"}
    && AllDigits(digits) && (rest == "" || !IsDigit(rest[0]))
    && Value(digits) <= (if sign == "-" then MAX_INT + 1 else MAX_INT)
  }

  lemma {:induction false} LeadingDigitsSplit(s: string) returns (rest: string)
    ensures s == LeadingDigits(s) + rest && (rest == "" || !IsDigit(rest[0]))
    ensures forall c <- LeadingDigits(s) :: IsDigit(c)
  {
    if s == [] || !IsDigit(s[0]) {
      rest := s;
    } else {
      rest := LeadingDigitsSplit(s[1..]);
    }
  }

  lemma {:induction false} LeadingDigitsOf(digits: string, rest: string)
    requires forall c <- digits :: IsDigit(c)
    requires rest == [] || !IsDigit(rest[0])
    ensures LeadingDigits(digits + rest) == digits
  {
    if digits == [] {
      assert digits + rest == rest;
    } else {
      assert (digits + rest)[1..] == digits[1..] + rest;
      assert digits[0] in digits && forall c <- digits[1..] :: c in digits;
      LeadingDigitsOf(digits[1..], rest);
      assert digits == [digits[0]] + digits[1..];
    }
  }

  /** Exactly the texts that start with such a number scan as one. */
  lemma {:induction false} ScanTakesApart(s: string) returns (space: string, sign: string, digits: string, rest: string)
    requires ScansAsInt(s)
    ensures ReadsInt(s, space, sign, digits, rest)
  {
    hide LeadingDigits;
    if IsSpace(s[0]) {
      var front;
      front, sign, digits, rest := ScanTakesApart(s[1..]);
      space := [s[0]] + front;
      assert s == [s[0]] + s[1..];
      assert s == space + sign + digits + rest;
    } else if s[0] == '-' || s[0] == '+' {
      space, sign, digits := "", [s[0]], LeadingDigits(s[1..]);
      rest := LeadingDigitsSplit(s[1..]);
      assert s == [s[0]] + s[1..];
    } else {
      space, sign, digits := "", "", LeadingDigits(s);
      rest := LeadingDigitsSplit(s);
    }
  }

  lemma {:induction false} ReadIntScans(s: string, space: string, sign: string, digits: string, rest: string)
    requires ReadsInt(s, space, sign, digits, rest)
    ensures ScansAsInt(s)
    decreases |space|
  {
    hide LeadingDigits, IsSpace;
    if space != "" {
      assert s[0] == space[0] && space[0] in space && s[1..] == space[1..] + sign + digits + rest;
      assert forall c <- space[1..] :: c in space;
      ReadIntScans(s[1..], space[1..], sign, digits, rest);
    } else {
      LeadingDigitsOf(digits, rest);
      NumberStarts(sign, digits, rest);
      assert s == sign + (digits + rest);
    }
  }

  lemma NumberStarts(sign: string, digits: string, rest: string)
    requires sign in {"", "-", "+"} && AllDigits(digits)
    ensures var s := sign + (digits + rest);
            s != "" && !IsSpace(s[0]) && (sign != "" ==> s[0] == sign[0] && s[1..] == digits + rest)
            && (sign == "" ==> IsDigit(s[0]) && s == digits + rest)
  {
    var s := sign + (digits + rest);
    assert sign == "" ==> s == digits + rest && s[0] == digits[0];
    assert digits[0] in digits;
  }

  /** The scalar node after SetField wrote its value: an integer tag survives only integers. */
  function Rewritten(leaf: Node, value: string): Node {
    leaf.(value := value, tag := if leaf.tag == "!!int" && !ScansAsInt(value) then "!!str" else leaf.tag)
  }

  function GetAt(root: Node, parts: seq<string>): Result<string, PathError> {
    match Navigate(root, parts)
    case Err(e) => Err(e)
    case Ok(a) => if At(root, a).kind != ScalarNode then Err(NotScalar) else Ok(At(root, a).value)
  }

  /** The new tree and the old value. */
  function SetAt(root: Node, parts: seq<string>, value: string): Result<(Node, string), PathError> {
    match Navigate(root, parts)
    case Err(e) => Err(e)
    case Ok(a) =>
      if At(root, a).kind != ScalarNode then Err(NotScalar)
      else Ok((Assign(root, a, Rewritten(At(root, a), value)), At(root, a).value))
  }

  // Assignments and addresses.

  lemma {:induction false} AssignAt(node: Node, a: Address, x: Node, y: Node)
    requires ValidAddress(node, a)
    ensures ValidAddress(Assign(node, a, x), a) && At(Assign(node, a, x), a) == x
    ensures Assign(Assign(node, a, x), a, y) == Assign(node, a, y)
    ensures Assign(node, a, At(node, a)) == node
    decreases |a|
  {
    if a != [] {
      AssignAt(node.content[a[0]], a[1..], x, y);
    }
  }

  /** Assigning to a value of a mapping leaves its keys, and so every lookup, where they were. */
  lemma {:induction false} FindValueUnmoved(content: seq<Node>, key: string, i: nat, at: nat, x: Node)
    requires at < |content| && at % 2 == 1 && i % 2 == 0
    ensures FindValue(content[at := x], key, i) == FindValue(content, key, i)
    decreases |content| - i
  {
    if i + 1 < |content| {
      FindValueUnmoved(content, key, i + 2, at, x);
    }
  }

  lemma {:induction false} FindValueOdd(content: seq<Node>, key: string, i: nat)
    requires i % 2 == 0
    ensures FindValue(content, key, i).Some? ==> FindValue(content, key, i).value % 2 == 1
    decreases |content| - i
  {
    if i + 1 < |content| {
      FindValueOdd(content, key, i + 2);
    }
  }

  lemma {:induction false} FindItemUnmoved(items: seq<Node>, name: string, i: nat, at: nat, x: Node)
    requires at < |items| && ItemName(x) == ItemName(items[at])
    ensures FindItem(items[at := x], name, i) == FindItem(items, name, i)
    decreases |items| - i
  {
    if i < |items| {
      FindItemUnmoved(items, name, i + 1, at, x);
    }
  }

  // The lens.

  /** The path ends in the very name by which its last selector picks an item. */
  predicate SelfSelecting(parts: seq<string>) {
    |parts| >= 2 && parts[|parts| - 1] == "name" && ParseArraySelector(parts[|parts| - 2]).Some?
  }

  /** A path that leads to a scalar. */
  predicate LeadsTo(node: Node, parts: seq<string>, a: Address) {
    Navigate(node, parts) == Ok(a) && At(node, a).kind == ScalarNode
  }

  /** The first step of such a path, and the rest of it. */
  lemma FirstStep(node: Node, parts: seq<string>, a: Address) returns (step: Address, rest: Address)
    requires LeadsTo(node, parts, a) && parts != []
    ensures Enter(node, parts[0]) == Ok(step) && a == step + rest && LeadsTo(At(node, step), parts[1..], rest)
    ensures node.kind == MappingNode && step[0] % 2 == 1
    ensures forall x :: Assign(node, a, x) == Assign(node, step, Assign(At(node, step), rest, x))
    ensures At(node, step).kind == (if |parts| > 1 then MappingNode else ScalarNode)
    ensures rest == [] <==> |parts| == 1
  {
    step := Enter(node, parts[0]).value;
    rest := Navigate(At(node, step), parts[1..]).value;
    Concat(node, step, rest);
    var selector := ParseArraySelector(parts[0]);
    FindValueOdd(node.content, if selector.Some? then selector.value.0 else parts[0], 0);
  }

  lemma NoPathAtMapping(node: Node, a: Address)
    requires node.kind == MappingNode
    ensures !LeadsTo(node, [], a)
  {}

  lemma NameKept(item: Node, parts: seq<string>, a: Address, x: Node)
    requires LeadsTo(item, parts, a) && x.kind == ScalarNode
    requires item.kind == MappingNode && parts != ["name"]
    ensures ItemName(Assign(item, a, x)) == ItemName(item)
  {
    hide FindValue, ParseArraySelector, Assign, ItemName;
    NoPathAtMapping(item, a);
    var step, rest := FirstStep(item, parts, a);
    StepShape(item, parts[0], step);
    assert |a| == 1 ==> parts == [parts[0]];
    NameBeside(item, a, x);
  }

  /** An item's name is kept by assigning to any other value in it, or below its name. */
  lemma NameBeside(item: Node, a: Address, x: Node)
    requires ValidAddress(item, a) && a != [] && a[0] % 2 == 1 && item.kind == MappingNode
    requires |a| > 1 || item.content[a[0] - 1].value != "name"
    ensures ItemName(Assign(item, a, x)) == ItemName(item)
  {
    hide FindValue;
    FindValueUnmoved(item.content, "name", 0, a[0], Assign(item.content[a[0]], a[1..], x));
  }

  /** Inside a selected list, the assignment moves no item. */
  lemma SequenceUnmoved(list: Node, j: nat, parts: seq<string>, rest: Address, x: Node, name: string)
    requires j < |list.content| && list.content[j].kind == MappingNode
    requires LeadsTo(list.content[j], parts, rest) && x.kind == ScalarNode && parts != ["name"]
    ensures FindItem(Assign(list, [j] + rest, x).content, name, 0) == FindItem(list.content, name, 0)
  {
    NameKept(list.content[j], parts, rest, x);
    assert ([j] + rest)[1..] == rest;
    FindItemUnmoved(list.content, name, 0, j, Assign(list.content[j], rest, x));
  }

  /** The leaf is not the name by which the first part selects its item. */
  predicate KeepsItems(parts: seq<string>) {
    parts != [] && !(|parts| == 2 && SelfSelecting(parts))
  }

  /** The child on the path keeps its kind and, if it is a list, the places of its named items. */
  lemma ChildUnmoved(node: Node, parts: seq<string>, a: Address, x: Node, name: string)
    requires LeadsTo(node, parts, a) && x.kind == ScalarNode && KeepsItems(parts)
    ensures a != [] && a[0] % 2 == 1 && a[0] < |node.content|
    ensures var child, child' := node.content[a[0]], Assign(node.content[a[0]], a[1..], x);
            && child'.kind == child.kind
            && (child.kind == SequenceNode ==> FindItem(child'.content, name, 0) == FindItem(child.content, name, 0))
  {
    hide FindItem, FindValue, ParseArraySelector;
    var step, rest := FirstStep(node, parts, a);
    if |step| == 2 {
      assert a[1..] == [step[1]] + rest;
      StepShape(node, parts[0], step);
      TwoLevels(node, step);
      SequenceUnmoved(node.content[a[0]], step[1], parts[1..], rest, x, name);
    } else {
      assert a[1..] == rest;
    }
  }

  /** A step goes to a value, or to a named item of a value that is a list. */
  lemma StepShape(node: Node, part: string, step: Address)
    requires Enter(node, part) == Ok(step)
    ensures |step| == 1 || |step| == 2
    ensures |step| == 2 <==> ParseArraySelector(part).Some?
    ensures |step| == 2 ==>
              && node.content[step[0]].kind == SequenceNode && step[1] < |node.content[step[0]].content|
              && node.content[step[0]].content[step[1]].kind == MappingNode
  {}

  /** Every part enters the edited tree as it entered the old one. */
  lemma EnterUnmoved(node: Node, parts: seq<string>, a: Address, x: Node, part: string)
    requires LeadsTo(node, parts, a) && x.kind == ScalarNode && KeepsItems(parts)
    ensures Enter(Assign(node, a, x), part) == Enter(node, part)
  {
    hide Navigate, KeepsItems, FindItem, FindValue, ParseArraySelector;
    var selector := ParseArraySelector(part);
    var key := if selector.Some? then selector.value.0 else part;
    ChildUnmoved(node, parts, a, x, if selector.Some? then selector.value.1 else "");
    FindValueUnmoved(node.content, key, 0, a[0], Assign(node.content[a[0]], a[1..], x));
  }

  /** Where a step other than the path's own leads, the tree is as it was, or at least still a list. */
  lemma OtherStepUnmoved(node: Node, parts: seq<string>, a: Address, x: Node, part: string, other: Address)
    requires LeadsTo(node, parts, a) && x.kind == ScalarNode && KeepsItems(parts)
    requires Enter(node, part) == Ok(other) && ValidAddress(Assign(node, a, x), other)
    requires Enter(node, parts[0]) != Ok(other)
    ensures At(Assign(node, a, x), other) == At(node, other)
         || At(Assign(node, a, x), other).kind == At(node, other).kind == SequenceNode
  {
    hide Enter, ParseArraySelector, Navigate;
    var step, rest := FirstStep(node, parts, a);
    StepShape(node, part, other);
    StepShape(node, parts[0], step);
    assert |step| == 1 ==> step == [a[0]] && At(node, step) == node.content[a[0]];
    assert |other| == 1 ==> other == [other[0]];
    if other[0] == a[0] {
      if |step| == 2 {
        assert a[1..] == [step[1]] + rest;
        if |other| == 1 {
          assert other == [a[0]];
        } else {
          assert other[1] != step[1] by {
            assert other == [other[0], other[1]] && step == [step[0], step[1]];
          }
          TwoLevels(node, other);
          TwoLevels(Assign(node, a, x), other);
        }
      }
    }
  }

  lemma TwoLevels(node: Node, a: Address)
    requires ValidAddress(node, a) && |a| == 2
    ensures a[0] < |node.content| && a[1] < |node.content[a[0]].content|
    ensures At(node, a) == node.content[a[0]].content[a[1]]
  {
    assert ValidAddress(node.content[a[0]], a[1..]);
    assert At(node.content[a[0]], a[1..]) == node.content[a[0]].content[a[1]];
  }

  /** Setting one scalar leaves every path, to any node whatsoever, leading where it led before. */
  lemma {:induction false} PathsUnmoved(node: Node, parts: seq<string>, a: Address, x: Node, others: seq<string>)
    requires LeadsTo(node, parts, a) && x.kind == ScalarNode && !SelfSelecting(parts)
    ensures Navigate(Assign(node, a, x), others) == Navigate(node, others)
    decreases |others|
  {
    hide Enter, ParseArraySelector;
    if others != [] {
      if parts == [] {
        NotEntered(node, others[0]);
        NotEntered(x, others[0]);
      } else {
        EnterUnmoved(node, parts, a, x, others[0]);
        if Enter(node, others[0]).Ok? {
          StepUnmoved(node, parts, a, x, others, Enter(node, others[0]).value);
        }
      }
    }
  }

  lemma NotEntered(node: Node, part: string)
    ensures node.kind != MappingNode ==> Enter(node, part).Err? && Enter(node, part).error == NotMapping
  {}

  lemma {:induction false} StepUnmoved(
      node: Node, parts: seq<string>, a: Address, x: Node, others: seq<string>, other: Address)
    requires LeadsTo(node, parts, a) && x.kind == ScalarNode && !SelfSelecting(parts)
    requires parts != [] && others != [] && Enter(node, others[0]) == Enter(Assign(node, a, x), others[0]) == Ok(other)
    ensures Navigate(At(Assign(node, a, x), other), others[1..]) == Navigate(At(node, other), others[1..])
    decreases |others|, 0
  {
    hide Enter, ParseArraySelector, Navigate;
    var step, rest := FirstStep(node, parts, a);
    if other == step {
      AssignAt(node, step, Assign(At(node, step), rest, x), x);
      TailSelects(parts);
      PathsUnmoved(At(node, step), parts[1..], rest, x, others[1..]);
    } else {
      OtherStepUnmoved(node, parts, a, x, others[0], other);
      NavigateFromList(At(node, other), At(Assign(node, a, x), other), others[1..]);
    }
  }

  lemma TailSelects(parts: seq<string>)
    requires parts != [] && !SelfSelecting(parts)
    ensures !SelfSelecting(parts[1..])
  {}

  lemma NavigateFromList(node: Node, node': Node, parts: seq<string>)
    requires node == node' || node.kind == node'.kind == SequenceNode
    ensures Navigate(node, parts) == Navigate(node', parts)
  {
    if parts != [] {
      NotEntered(node, parts[0]);
      NotEntered(node', parts[0]);
    }
  }

  // The laws.

  /** Setting a scalar changes what is read at its own address, and nothing that is read elsewhere. */
  lemma SetChangesOnlyItsLeaf(root: Node, parts: seq<string>, value: string, others: seq<string>)
    requires SetAt(root, parts, value).Ok? && !SelfSelecting(parts)
    ensures var root' := SetAt(root, parts, value).value.0;
            && Navigate(root', others) == Navigate(root, others)
            && GetAt(root', others)
               == if Navigate(root, others) == Navigate(root, parts) then Ok(value) else GetAt(root, others)
  {
    hide Enter, ParseArraySelector, Navigate;
    var a := Navigate(root, parts).value;
    var x := Rewritten(At(root, a), value);
    PathsUnmoved(root, parts, a, x, others);
    AssignAt(root, a, x, x);
    if Navigate(root, others).Ok? && Navigate(root, others).value != a {
      ReadElsewhere(root, a, x, Navigate(root, others).value);
    }
  }

  /** At any other address, above the leaf or beside it, stands what stood there. */
  lemma {:induction false} ReadElsewhere(node: Node, a: Address, x: Node, b: Address)
    requires ValidAddress(node, a) && ValidAddress(node, b) && a != b
    requires At(node, a).content == x.content
    ensures ValidAddress(Assign(node, a, x), b)
    ensures At(Assign(node, a, x), b).kind == At(node, b).kind && At(Assign(node, a, x), b).value == At(node, b).value
    decreases |b|
  {
    if a != [] && b != [] && a[0] == b[0] {
      assert a == [a[0]] + a[1..] && b == [b[0]] + b[1..];
      ReadElsewhere(node.content[a[0]], a[1..], x, b[1..]);
    }
  }

  /** SetField on a value: where it writes, and what. */
  lemma SetShape(root: Node, parts: seq<string>, value: string) returns (a: Address)
    requires SetAt(root, parts, value).Ok?
    ensures LeadsTo(root, parts, a)
    ensures SetAt(root, parts, value).value == (Assign(root, a, Rewritten(At(root, a), value)), At(root, a).value)
    ensures GetAt(root, parts) == Ok(At(root, a).value)
  {
    a := Navigate(root, parts).value;
  }

  /** The scalar that was set has the new value and its old tag, except that text which does not scan as an
      integer turns an integer tag into a string tag. */
  lemma TagAfterSet(root: Node, parts: seq<string>, value: string) returns (a: Address)
    requires SetAt(root, parts, value).Ok?
    ensures LeadsTo(root, parts, a)
    ensures var (before, root') := (At(root, a), SetAt(root, parts, value).value.0);
            && ValidAddress(root', a)
            && At(root', a) == Node(ScalarNode, value,
                                    if before.tag == "!!int" && !ScansAsInt(value) then "!!str" else before.tag,
                                    before.content)
  {
    hide Navigate, ScansAsInt, Rewritten;
    a := SetShape(root, parts, value);
    AssignAt(root, a, Rewritten(At(root, a), value), Rewritten(At(root, a), value));
    RewrittenFields(At(root, a), value);
  }

  lemma RewrittenFields(leaf: Node, value: string)
    ensures Rewritten(leaf, value) == Node(leaf.kind, value,
                                           if leaf.tag == "!!int" && !ScansAsInt(value) then "!!str" else leaf.tag,
                                           leaf.content)
  {}

  /** Set-get: the value set is the value read, exactly unless the path rewrites the name by which it
      selects its own item. */
  lemma SetGetIff(root: Node, parts: seq<string>, value: string)
    requires SetAt(root, parts, value).Ok?
    ensures GetAt(SetAt(root, parts, value).value.0, parts) == Ok(value)
       <==> !SelfSelecting(parts) || SetAt(root, parts, value).value.1 == value
  {
    hide Navigate, GetAt, SetAt, SelfSelecting, Rewritten;
    if !SelfSelecting(parts) {
      SetChangesOnlyItsLeaf(root, parts, value, parts);
    } else {
      var a := SetShape(root, parts, value);
      RewrittenShape(At(root, a), value);
      SelfSelected(root, parts, a, Rewritten(At(root, a), value));
    }
  }

  lemma RewrittenShape(leaf: Node, value: string)
    ensures var x := Rewritten(leaf, value); x.kind == leaf.kind && x.value == value && x.content == leaf.content
  {}

  function GetAfter(node: Node, step: Result<Address, PathError>, rest: seq<string>): Result<string, PathError>
    requires step.Ok? ==> ValidAddress(node, step.value)
  {
    if step.Err? then Err(step.error) else GetAt(At(node, step.value), rest)
  }

  /** Reading one part at a time. */
  lemma GetUnrolled(node: Node, parts: seq<string>)
    requires parts != []
    ensures GetAt(node, parts) == GetAfter(node, Enter(node, parts[0]), parts[1..])
  {
    hide Enter;
    if Enter(node, parts[0]).Ok? {
      var step := Enter(node, parts[0]).value;
      if Navigate(At(node, step), parts[1..]).Ok? {
        Concat(node, step, Navigate(At(node, step), parts[1..]).value);
      }
    }
  }

  /** The path "name" leads to the name that selectors go by. */
  lemma NameAddress(item: Node)
    ensures Navigate(item, ["name"]).Ok? ==> item.kind == MappingNode && MappingValue(item, "name").Some?
    ensures Navigate(item, ["name"]).Ok? ==> Navigate(item, ["name"]).value == [MappingValue(item, "name").value]
    ensures item.kind == MappingNode && MappingValue(item, "name").Some? ==> Navigate(item, ["name"]).Ok?
  {
    hide FindValue;
    assert IndexOf("name", '[') == None;
    assert ["name"][1..] == [];
  }

  lemma OneLevel(node: Node, k: nat, x: Node)
    requires k < |node.content|
    ensures ValidAddress(node, [k]) && At(node, [k]) == node.content[k]
    ensures Assign(node, [k], x) == node.(content := node.content[k := x])
  {
    assert [k][1..] == [];
  }

  lemma GetName(item: Node)
    ensures GetAt(item, ["name"]).Ok? ==> ItemName(item) == Some(GetAt(item, ["name"]).value)
  {
    hide Navigate, FindValue, At;
    NameAddress(item);
    if Navigate(item, ["name"]).Ok? {
      OneLevel(item, MappingValue(item, "name").value, item);
    }
  }

  /** A self-selecting path does not find its item again, unless the name stays the same. */
  lemma {:induction false} SelfSelected(node: Node, parts: seq<string>, a: Address, x: Node)
    requires LeadsTo(node, parts, a) && x.kind == ScalarNode && SelfSelecting(parts)
    ensures GetAt(Assign(node, a, x), parts) == Ok(x.value) <==> x.value == At(node, a).value
    decreases |parts|
  {
    hide Enter, Navigate, GetAt, ParseArraySelector;
    var node' := Assign(node, a, x);
    var step, rest := FirstStep(node, parts, a);
    GetUnrolled(node', parts);
    Concat(node, step, rest);
    if |parts| == 2 {
      assert parts[1..] == ["name"];
      SelectedByName(node, parts[0], step, rest, x);
    } else {
      EnterUnmoved(node, parts, a, x, parts[0]);
      AssignAt(node, step, Assign(At(node, step), rest, x), x);
      SelfSelected(At(node, step), parts[1..], rest, x);
    }
  }

  /** The last two parts of a self-selecting path. */
  lemma SelectedByName(node: Node, part: string, step: Address, rest: Address, x: Node)
    requires Enter(node, part) == Ok(step) && ParseArraySelector(part).Some? && x.kind == ScalarNode
    requires LeadsTo(At(node, step), ["name"], rest) && ValidAddress(node, step + rest)
    ensures var node' := Assign(node, step + rest, x);
            GetAfter(node', Enter(node', part), ["name"]) == Ok(x.value) <==> x.value == At(At(node, step), rest).value
  {
    hide FindValue, FindItem, GetAt, ParseArraySelector, Assign, At, ValidAddress, ItemName;
    StepShape(node, part, step);
    TwoLevels(node, step);
    var item, item' := At(node, step), Assign(At(node, step), rest, x);
    var name := ParseArraySelector(part).value.1;
    NamedItem(item, rest, x);
    var list' := ReplacedItem(node, step, rest, x);
    var node' := Assign(node, step + rest, x);
    FindValueOdd(node.content, ParseArraySelector(part).value.0, 0);
    FindValueUnmoved(node.content, ParseArraySelector(part).value.0, 0, step[0], list');
    if x.value == name {
      FindItemUnmoved(node.content[step[0]].content, name, 0, step[1], item');
      TwoLevels(node', step);
    } else if Enter(node', part).Ok? {
      TwoLevels(node', Enter(node', part).value);
      GetName(At(node', Enter(node', part).value));
    }
  }

  lemma ReplacedItem(node: Node, step: Address, rest: Address, x: Node) returns (list: Node)
    requires |step| == 2 && ValidAddress(node, step) && ValidAddress(At(node, step), rest)
    requires ValidAddress(node, step + rest)
    ensures step[0] < |node.content| && step[1] < |node.content[step[0]].content|
    ensures list == node.content[step[0]].(
              content := node.content[step[0]].content[step[1] := Assign(At(node, step), rest, x)])
    ensures Assign(node, step + rest, x) == node.(content := node.content[step[0] := list])
    ensures ValidAddress(Assign(node, step + rest, x), step)
  {
    TwoLevels(node, step);
    Concat(node, step, rest);
    AssignAt(node, step, Assign(At(node, step), rest, x), x);
    assert step[1..][1..] == [];
    list := node.content[step[0]].(
      content := node.content[step[0]].content[step[1] := Assign(At(node, step), rest, x)]);
  }

  lemma NamedItem(item: Node, a: Address, x: Node)
    requires LeadsTo(item, ["name"], a) && x.kind == ScalarNode
    ensures ItemName(item) == Some(At(item, a).value) && ItemName(Assign(item, a, x)) == Some(x.value)
    ensures GetAt(Assign(item, a, x), ["name"]) == Ok(x.value)
  {
    hide Navigate, FindValue, At, Assign, ValidAddress;
    NameAddress(item);
    var k := a[0];
    OneLevel(item, k, x);
    FindValueOdd(item.content, "name", 0);
    FindValueUnmoved(item.content, "name", 0, k, x);
    NameAddress(Assign(item, a, x));
    OneLevel(Assign(item, a, x), k, x);
  }

  /** Get-set: writing back what was read restores the tree, exactly unless the tag claims an integer
      that the value is not. */
  lemma GetSetIff(root: Node, parts: seq<string>)
    requires GetAt(root, parts).Ok?
    ensures var value := GetAt(root, parts).value;
            && SetAt(root, parts, value).Ok?
            && var leaf := At(root, Navigate(root, parts).value);
               (SetAt(root, parts, value).value.0 == root <==> leaf.tag != "!!int" || ScansAsInt(value))
  {
    hide Navigate, ScansAsInt;
    var value := GetAt(root, parts).value;
    var a := Navigate(root, parts).value;
    AssignAt(root, a, Rewritten(At(root, a), value), At(root, a));
  }

  /** Set-set: a second write hides the first, exactly unless the first made an integer tag a string
      tag and the second would have kept it. */
  lemma SetSetIff(root: Node, parts: seq<string>, first: string, second: string)
    requires SetAt(root, parts, first).Ok? && !SelfSelecting(parts)
    ensures var mid := SetAt(root, parts, first).value.0;
            && SetAt(mid, parts, second).Ok? && SetAt(mid, parts, second).value.1 == first
            && (SetAt(mid, parts, second).value.0 == SetAt(root, parts, second).value.0 <==>
                  At(root, Navigate(root, parts).value).tag != "!!int" || ScansAsInt(first) || !ScansAsInt(second))
  {
    hide Navigate, ScansAsInt, SelfSelecting;
    var a := Navigate(root, parts).value;
    var leaf := At(root, a);
    PathsUnmoved(root, parts, a, Rewritten(leaf, first), parts);
    AssignAt(root, a, Rewritten(leaf, first), Rewritten(Rewritten(leaf, first), second));
    AssignAt(root, a, Rewritten(Rewritten(leaf, first), second), leaf);
    AssignAt(root, a, Rewritten(leaf, second), leaf);
  }
}
