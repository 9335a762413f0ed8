/** Configuration lists as text: splitting, printing, and what re-parsing the print gives. */
module ConfigText {
  import opened Basics

  // ----- strings -----

  /** Python's whitespace. */
  predicate Space(c: char) {
    var n := c as int;
    9 <= n <= 13 || 28 <= n <= 32 || n == 0x85 || n == 0xA0 || n == 0x1680 || 0x2000 <= n <= 0x200A
    || n == 0x2028 || n == 0x2029 || n == 0x202F || n == 0x205F || n == 0x3000
  }

  predicate Digit(c: char) { '0' <= c <= '9' }

  /** Neither end is whitespace. */
  predicate Trimmed(s: string) { s == "" || (!Space(s[0]) && !Space(s[|s| - 1])) }

  function StripLeft(s: string): (r: string)
    ensures r != "" ==> !Space(r[0]) && |r| <= |s| && r == s[|s| - |r|..]
    ensures s != "" && !Space(s[0]) ==> r == s
  {
    if s != "" && Space(s[0]) then StripLeft(s[1..]) else s
  }

  function StripRight(s: string): (r: string)
    ensures r <= s && (r != "" ==> !Space(r[|r| - 1]))
    ensures s != "" && !Space(s[|s| - 1]) ==> r == s
  {
    if s != "" && Space(s[|s| - 1]) then StripRight(s[..|s| - 1]) else s
  }

  function Strip(s: string): (r: string)
    ensures Trimmed(r)
    ensures Trimmed(s) ==> r == s
    ensures forall c :: c in r ==> c in s
  {
    StripRight(StripLeft(s))
  }

  predicate AllSpace(s: string) { forall i :: 0 <= i < |s| ==> Space(s[i]) }

  lemma {:induction false} StripLeftPadding(a: string, t: string)
    requires AllSpace(a)
    ensures StripLeft(a + t) == StripLeft(t)
  {
    if a == "" {
      assert a + t == t;
    } else {
      assert (a + t)[1..] == a[1..] + t;
      StripLeftPadding(a[1..], t);
    }
  }

  lemma {:induction false} StripRightPadding(t: string, b: string)
    requires AllSpace(b)
    ensures StripRight(t + b) == StripRight(t)
  {
    if b == "" {
      assert t + b == t;
    } else {
      assert (t + b)[..|t + b| - 1] == t + b[..|b| - 1];
      StripRightPadding(t, b[..|b| - 1]);
    }
  }

  /** Stripping takes exactly the whitespace around a text. */
  lemma {:induction false} StripsPadding(a: string, t: string, b: string)
    requires AllSpace(a) && AllSpace(b) && Trimmed(t)
    ensures Strip(a + t + b) == t
  {
    hide Space;
    assert a + t + b == a + (t + b);
    StripLeftPadding(a, t + b);
    if t == "" {
      assert t + b == b + "";
      StripLeftPadding(b, "");
      assert StripLeft("") == "" && StripRight("") == "";
    } else {
      assert (t + b)[0] == t[0];
      assert StripLeft(t + b) == t + b;
      StripRightPadding(t, b);
    }
  }

  function SplitOn(s: string, sep: char): (parts: seq<string>)
    ensures |parts| >= 1
    ensures forall i :: 0 <= i < |parts| ==> sep !in parts[i]
    ensures forall i :: 0 <= i < |parts| ==> forall c :: c in parts[i] ==> c in s
  {
    if s == "" then [""]
    else if s[0] == sep then [""] + SplitOn(s[1..], sep)
    else
      var rest := SplitOn(s[1..], sep);
      [[s[0]] + rest[0]] + rest[1..]
  }

  function JoinWith(parts: seq<string>, sep: char): string {
    if parts == [] then "" else if |parts| == 1 then parts[0] else parts[0] + [sep] + JoinWith(parts[1..], sep)
  }

  lemma {:induction false} SplitOfHead(a: string, sep: char, rest: string)
    requires sep !in a
    ensures SplitOn(a + [sep] + rest, sep) == [a] + SplitOn(rest, sep)
    ensures SplitOn(a, sep) == [a]
  {
    if a == "" {
      assert a + [sep] + rest == [sep] + rest;
      assert ([sep] + rest)[1..] == rest;
    } else {
      SplitOfHead(a[1..], sep, rest);
      assert (a + [sep] + rest)[1..] == a[1..] + [sep] + rest;
      assert [a[0]] + a[1..] == a;
    }
  }

  lemma {:induction false} SplitUndoesJoin(parts: seq<string>, sep: char)
    requires parts != [] && forall i :: 0 <= i < |parts| ==> sep !in parts[i]
    ensures SplitOn(JoinWith(parts, sep), sep) == parts
  {
    hide SplitOn;
    if |parts| == 1 {
      SplitOfHead(parts[0], sep, "");
    } else {
      SplitOfHead(parts[0], sep, JoinWith(parts[1..], sep));
      SplitUndoesJoin(parts[1..], sep);
      assert [parts[0]] + parts[1..] == parts;
    }
  }

  // ----- decimal numbers -----

  function DigitChar(d: nat): (c: char)
    requires d < 10
    ensures Digit(c) && DigitValue(c) == d
  {
    ('0' as int + d) as char
  }

  function Decimal(n: nat): (s: string)
    ensures s != "" && forall i :: 0 <= i < |s| ==> Digit(s[i])
  {
    if n < 10 then [DigitChar(n)] else Decimal(n / 10) + [DigitChar(n % 10)]
  }

  function DigitValue(c: char): nat
    requires Digit(c)
  {
    c as int - '0' as int
  }

  function DecimalValue(s: string): nat
    requires forall i :: 0 <= i < |s| ==> Digit(s[i])
  {
    if s == "" then 0 else DecimalValue(s[..|s| - 1]) * 10 + DigitValue(s[|s| - 1])
  }

  lemma {:induction false} DecimalRoundTrip(n: nat)
    ensures DecimalValue(Decimal(n)) == n
  {
    if n >= 10 {
      DecimalRoundTrip(n / 10);
      assert Decimal(n)[..|Decimal(n)| - 1] == Decimal(n / 10);
    } else {
      assert Decimal(n)[..0] == "";
    }
  }

  // ----- indexed lists -----

  datatype Item = Item(index: nat, value: string)

  function LeadingDigits(s: string): (n: nat)
    ensures n <= |s| && forall i :: 0 <= i < n ==> Digit(s[i])
    ensures n < |s| ==> !Digit(s[n])
  {
    if s != "" && Digit(s[0]) then 1 + LeadingDigits(s[1..]) else 0
  }

  function LeadingSpaces(s: string): (n: nat)
    ensures n <= |s| && (n < |s| ==> !Space(s[n]))
    ensures s != "" && !Space(s[0]) ==> n == 0
  {
    if s != "" && Space(s[0]) then 1 + LeadingSpaces(s[1..]) else 0
  }

  /** A digit run, a colon and a value, spaces around the colon allowed. The value pattern does
      not match across a newline. */
  function MatchIndexed(item: string): Option<Item> {
    var d := LeadingDigits(item);
    var i := d + LeadingSpaces(item[d..]);
    if d == 0 || i == |item| || item[i] != ':' then None
    else
      var j := i + 1 + LeadingSpaces(item[i + 1..]);
      if j == |item| || '\n' in item[j..] then None
      else Some(Item(DecimalValue(item[..d]), Strip(item[j..])))
  }

  /** The item a raw entry stands for, given the next free index. */
  function ItemOf(raw: string, next: nat): Option<Item> {
    var item := Strip(raw);
    if item == "" then None
    else match MatchIndexed(item)
      case Some(indexed) => Some(indexed)
      case None => Some(Item(next, item))
  }

  function ParseItems(raws: seq<string>, next: nat): seq<Item> {
    if raws == [] then []
    else match ItemOf(raws[0], next)
      case None => ParseItems(raws[1..], next)
      case Some(item) => [item] + ParseItems(raws[1..], item.index + 1)
  }

  function ParseIndexedList(text: string, start: nat): seq<Item> { ParseItems(SplitOn(text, ','), start) }

  method SplitIndexedConfigList(value: string, defaultStart: nat) returns (items: seq<Item>)
    ensures items == ParseIndexedList(value, defaultStart)
  {
    hide ItemOf, MatchIndexed, Strip, SplitOn, ParseItems;
    var raws := SplitOn(value, ',');
    var nextIndex: nat := defaultStart;
    items := [];
    assert [] + ParseItems(raws, defaultStart) == ParseItems(raws, defaultStart);
    assert raws[0..] == raws;
    for n := 0 to |raws|
      invariant ParseItems(raws, defaultStart) == items + ParseItems(raws[n..], nextIndex)
    {
      var item := Strip(raws[n]);
      ParseStep(raws[n..], nextIndex);
      assert raws[n..][1..] == raws[n + 1..];
      if item == "" { continue; }
      var matched := MatchIndexed(item);
      var parsed := if matched.Some? then matched.value else Item(nextIndex, item);
      ghost var later := ParseItems(raws[n + 1..], parsed.index + 1);
      assert items + ([parsed] + later) == (items + [parsed]) + later;
      items := items + [parsed];
      nextIndex := parsed.index + 1;
    }
    NothingToParse(raws[|raws|..], nextIndex);
    assert items + [] == items;
  }

  lemma {:induction false} NothingToParse(raws: seq<string>, next: nat)
    requires raws == []
    ensures ParseItems(raws, next) == []
  {
  }

  lemma {:induction false} ParseStep(raws: seq<string>, next: nat)
    requires raws != []
    ensures var item := Strip(raws[0]);
            if item == "" then ParseItems(raws, next) == ParseItems(raws[1..], next)
            else
              var matched := MatchIndexed(item);
              var parsed := if matched.Some? then matched.value else Item(next, item);
              ParseItems(raws, next) == [parsed] + ParseItems(raws[1..], parsed.index + 1)
  {
    hide Strip, MatchIndexed;
  }

  /** What a parsed value looks like. */
  predicate ParsedValue(v: string) { v != "" && Trimmed(v) && ',' !in v }

  lemma {:induction false} ItemIsParsed(raw: string, next: nat)
    requires ',' !in raw && ItemOf(raw, next).Some?
    ensures ParsedValue(ItemOf(raw, next).value.value)
  {
    hide Strip, MatchIndexed;
    var item := Strip(raw);
    if MatchIndexed(item).Some? { MatchedValue(item); }
  }

  lemma {:induction false} MatchedValue(item: string)
    requires Trimmed(item) && MatchIndexed(item).Some?
    ensures var v := MatchIndexed(item).value.value;
            v != "" && Trimmed(v) && forall c :: c in v ==> c in item
  {
    hide Strip, Space, LeadingSpaces, LeadingDigits, DecimalValue;
    var d := LeadingDigits(item);
    var i := d + LeadingSpaces(item[d..]);
    var after := item[i + 1..];
    var j := i + 1 + LeadingSpaces(after);
    var rest := item[j..];
    assert rest[0] == after[j - i - 1];
    assert rest[|rest| - 1] == item[|item| - 1];
  }

  lemma {:induction false} ParserProducesParsedValues(raws: seq<string>, next: nat)
    requires forall i :: 0 <= i < |raws| ==> ',' !in raws[i]
    ensures forall k :: 0 <= k < |ParseItems(raws, next)| ==> ParsedValue(ParseItems(raws, next)[k].value)
  {
    hide ItemOf, ParsedValue;
    if raws != [] {
      var head := ItemOf(raws[0], next);
      if head.Some? {
        ItemIsParsed(raws[0], next);
        ParserProducesParsedValues(raws[1..], head.value.index + 1);
      } else {
        ParserProducesParsedValues(raws[1..], next);
      }
    }
  }

  // ----- printing and parsing again -----

  function PrintItem(item: Item): string { Decimal(item.index) + ":" + item.value }

  function PrintItems(items: seq<Item>): seq<string> {
    seq(|items|, i requires 0 <= i < |items| => PrintItem(items[i]))
  }

  function PrintList(items: seq<Item>): string { JoinWith(PrintItems(items), ',') }

  lemma {:induction false} DigitsBeforeColon(digits: string, rest: string)
    requires forall i :: 0 <= i < |digits| ==> Digit(digits[i])
    ensures LeadingDigits(digits + ":" + rest) == |digits|
  {
    if digits != "" {
      DigitsBeforeColon(digits[1..], rest);
      assert (digits + ":" + rest)[1..] == digits[1..] + ":" + rest;
    } else {
      assert (digits + ":" + rest)[0] == ':';
    }
  }

  lemma {:induction false} PlainCharacters(c: char)
    ensures Digit(c) ==> !Space(c)
    ensures !Space(':')
  {
  }

  lemma {:induction false} PrintedItem(item: Item, next: nat)
    requires ParsedValue(item.value)
    ensures ',' !in PrintItem(item)
    ensures ItemOf(PrintItem(item), next)
         == Some(if '\n' in item.value then Item(next, PrintItem(item)) else item)
  {
    hide Decimal, Strip, Space, DecimalValue;
    var digits, v := Decimal(item.index), item.value;
    var s := PrintItem(item);
    assert s[0] == digits[0] && s[|s| - 1] == v[|v| - 1];
    assert !Space(digits[0]) && !Space(':') by { PlainCharacters(digits[0]); }
    assert Trimmed(s);
    DigitsBeforeColon(digits, v);
    var d := |digits|;
    assert s[..d] == digits;
    assert s[d..] == ":" + v && s[d + 1..] == v;
    assert LeadingSpaces(s[d..]) == 0;
    DecimalRoundTrip(item.index);
  }

  lemma {:induction false} ReparseItems(items: seq<Item>, next: nat)
    requires forall i :: 0 <= i < |items| ==> ParsedValue(items[i].value)
    ensures ParseItems(PrintItems(items), next) == items
            <==> forall i :: 0 <= i < |items| ==> '\n' !in items[i].value
  {
    hide ItemOf, PrintItem, ParsedValue;
    if items != [] {
      var raws := PrintItems(items);
      PrintedItem(items[0], next);
      assert raws[1..] == PrintItems(items[1..]);
      var head := ItemOf(raws[0], next).value;
      ReparseItems(items[1..], head.index + 1);
      assert items == [items[0]] + items[1..];
      if '\n' in items[0].value {
        PrintIsLonger(items[0]);
        assert ParseItems(raws, next)[0] == head;
      }
    }
  }

  lemma {:induction false} PrintIsLonger(item: Item)
    ensures PrintItem(item) != item.value
  {
    assert |PrintItem(item)| > |item.value|;
  }

  /** Reading a printed value with a newline gives it back with its index label in front. */
  lemma {:induction false} ReparsedValues(items: seq<Item>, next: nat)
    requires forall i :: 0 <= i < |items| ==> ParsedValue(items[i].value)
    ensures var again := ParseItems(PrintItems(items), next);
            |again| == |items|
            && forall i :: 0 <= i < |items| ==>
                 again[i].value == if '\n' in items[i].value then PrintItem(items[i]) else items[i].value
  {
    hide ItemOf, PrintItem, ParsedValue;
    if items != [] {
      var raws := PrintItems(items);
      PrintedItem(items[0], next);
      assert raws[1..] == PrintItems(items[1..]);
      ReparsedValues(items[1..], ItemOf(raws[0], next).value.index + 1);
    }
  }

  /** A parsed value has no character that the text has not. */
  lemma {:induction false} ParserInventsNothing(raws: seq<string>, next: nat, c: char)
    requires forall i :: 0 <= i < |raws| ==> c !in raws[i]
    ensures forall k :: 0 <= k < |ParseItems(raws, next)| ==> c !in ParseItems(raws, next)[k].value
  {
    hide Strip, MatchIndexed;
    if raws != [] {
      var head := ItemOf(raws[0], next);
      if head.Some? {
        if MatchIndexed(Strip(raws[0])).Some? { MatchedValue(Strip(raws[0])); }
        ParserInventsNothing(raws[1..], head.value.index + 1, c);
      } else {
        ParserInventsNothing(raws[1..], next, c);
      }
    }
  }

  predicate NoNewline(items: seq<Item>) {
    forall i :: 0 <= i < |items| ==> '\n' !in items[i].value
  }

  /** Printing an indexed list that the parser produced and parsing it again gives the same
      indices and values, exactly when no value contains a newline. */
  lemma {:induction false} IndexedListRoundTrip(text: string, start: nat, start': nat)
    ensures var items := ParseIndexedList(text, start);
            (ParseIndexedList(PrintList(items), start') == items <==> NoNewline(items))
            && ('\n' !in text ==> NoNewline(items))
  {
    var items := ParseIndexedList(text, start);
    if '\n' !in text { ParserInventsNothing(SplitOn(text, ','), start, '\n'); }
    ParserProducesParsedValues(SplitOn(text, ','), start);
    if items == [] {
      assert PrintItems(items) == [];
      assert SplitOn("", ',') == [""];
      assert Strip("") == "";
      assert ParseItems([""], start') == [];
    } else {
      PrintedWithoutComma(items);
      SplitUndoesJoin(PrintItems(items), ',');
      ReparseItems(items, start');
    }
  }

  lemma {:induction false} PlainValue(v: string, start: nat)
    requires ParsedValue(v) && !Digit(v[0])
    ensures ParseIndexedList(v, start) == [Item(start, v)]
  {
    hide SplitOn, Strip;
    SplitOfHead(v, ',', "");
    ParseStep([v], start);
    assert [v][1..] == [];
  }

  /** A value with a newline does not survive: unlike every other value, it comes back with its
      own index label in front. */
  lemma {:induction false} NewlineBreaksRoundTrip(start: nat)
    ensures ParseIndexedList("a\nb", start) == [Item(start, "a\nb")]
    ensures ParseIndexedList(PrintList([Item(start, "a\nb")]), start) != [Item(start, "a\nb")]
  {
    hide ParseIndexedList, PrintList;
    var v := "a\nb";
    assert v[1] == '\n';
    PlainValue(v, start);
    var items := ParseIndexedList(v, start);
    assert '\n' in items[0].value;
    IndexedListRoundTrip(v, start, start);
  }

  // ----- what the parser makes of a written list -----

  /** An entry as an operator writes it: nothing, a value, or a value with its index label,
      with whitespace wherever it is allowed. */
  datatype Entry =
    | Empty(around: string)
    | Plain(before: string, value: string, after: string)
    | Labelled(before: string, index: nat, middle: string, gap: string, value: string, after: string)
  {
    predicate Valid() {
      match this
      case Empty(around) => AllSpace(around)
      case Plain(before, value, after) =>
        AllSpace(before) && AllSpace(after) && ParsedValue(value) && (':' in value ==> !Digit(value[0]))
      case Labelled(before, _, middle, gap, value, after) =>
        && AllSpace(before) && AllSpace(middle) && AllSpace(gap) && AllSpace(after)
        && ParsedValue(value) && '\n' !in value
    }

    function Text(): string {
      match this
      case Empty(around) => around
      case Plain(before, value, after) => before + value + after
      case Labelled(before, index, middle, gap, value, after) =>
        before + (Decimal(index) + middle + ":" + gap + value) + after
    }
  }

  function Texts(entries: seq<Entry>): seq<string> {
    seq(|entries|, i requires 0 <= i < |entries| => entries[i].Text())
  }

  /** Labels count as they stand, other values go on from the one before. */
  function Numbered(entries: seq<Entry>, next: nat): seq<Item> {
    if entries == [] then []
    else match entries[0]
      case Empty(_) => Numbered(entries[1..], next)
      case Plain(_, value, _) => [Item(next, value)] + Numbered(entries[1..], next + 1)
      case Labelled(_, index, _, _, value, _) => [Item(index, value)] + Numbered(entries[1..], index + 1)
  }

  lemma {:induction false} DigitsLead(digits: string, rest: string)
    requires (forall i :: 0 <= i < |digits| ==> Digit(digits[i])) && (rest == "" || !Digit(rest[0]))
    ensures LeadingDigits(digits + rest) == |digits|
  {
    if digits == "" {
      assert digits + rest == rest;
    } else {
      assert (digits + rest)[1..] == digits[1..] + rest;
      DigitsLead(digits[1..], rest);
    }
  }

  lemma {:induction false} SpacesLead(spaces: string, rest: string)
    requires AllSpace(spaces) && (rest == "" || !Space(rest[0]))
    ensures LeadingSpaces(spaces + rest) == |spaces|
  {
    if spaces == "" {
      assert spaces + rest == rest;
    } else {
      assert (spaces + rest)[1..] == spaces[1..] + rest;
      SpacesLead(spaces[1..], rest);
    }
  }

  lemma {:induction false} LabelParts(digits: string, middle: string, gap: string, value: string)
    ensures var item, d, m := digits + middle + ":" + gap + value, |digits|, |middle|;
            && |item| == d + m + 1 + |gap| + |value|
            && item == digits + (middle + (":" + gap + value)) && item[..d] == digits
            && item[d..] == middle + (":" + gap + value) && item[d + m] == ':'
            && item[d + m + 1..] == gap + value && item[d + m + 1 + |gap|..] == value
  {
  }

  lemma {:induction false} LabelShape(digits: string, middle: string, gap: string, value: string)
    requires digits != "" && (forall i :: 0 <= i < |digits| ==> Digit(digits[i]))
    requires AllSpace(middle) && AllSpace(gap) && ParsedValue(value)
    ensures var item := digits + middle + ":" + gap + value;
            Trimmed(item) && ',' !in item
  {
    hide Space, Digit;
    var item := digits + middle + ":" + gap + value;
    assert item[0] == digits[0] && item[|item| - 1] == value[|value| - 1];
    PlainCharacters(digits[0]);
    Separators(middle);
    Separators(gap);
    NoCommaInDigits(digits);
  }

  lemma {:induction false} NoCommaInDigits(digits: string)
    requires forall i :: 0 <= i < |digits| ==> Digit(digits[i])
    ensures ',' !in digits
  {
  }

  lemma {:induction false} MatchAt(item: string, d: nat, m: nat, g: nat, value: string, index: nat)
    requires ParsedValue(value) && '\n' !in value && d > 0 && |item| == d + m + 1 + g + |value|
    requires LeadingDigits(item) == d && LeadingSpaces(item[d..]) == m && item[d + m] == ':'
    requires LeadingSpaces(item[d + m + 1..]) == g && item[d + m + 1 + g..] == value
    requires DecimalValue(item[..d]) == index
    ensures MatchIndexed(item) == Some(Item(index, value))
  {
    hide Strip, DecimalValue, Space, LeadingDigits, LeadingSpaces;
  }

  lemma {:induction false} LabelMatches(index: nat, middle: string, gap: string, value: string)
    requires AllSpace(middle) && AllSpace(gap) && ParsedValue(value) && '\n' !in value
    ensures MatchIndexed(Decimal(index) + middle + ":" + gap + value) == Some(Item(index, value))
  {
    hide Decimal, Strip, DecimalValue, Space, LeadingDigits, LeadingSpaces, AllSpace, MatchIndexed, ParsedValue;
    var digits, rest := Decimal(index), ":" + gap + value;
    LabelParts(digits, middle, gap, value);
    DecimalRoundTrip(index);
    assert !Digit((middle + rest)[0]) by {
      Separators(middle);
      assert (middle + rest)[0] == if middle == "" then ':' else middle[0];
    }
    DigitsLead(digits, middle + rest);
    PlainCharacters(':');
    SpacesLead(middle, rest);
    assert !Space(value[0]) && value != "" by { FirstCharacter(value); }
    SpacesLead(gap, value);
    MatchAt(digits + middle + ":" + gap + value, |digits|, |middle|, |gap|, value, index);
  }

  lemma {:induction false} FirstCharacter(value: string)
    requires ParsedValue(value)
    ensures value != "" && !Space(value[0])
  {
  }

  lemma {:induction false} Separators(spaces: string)
    requires AllSpace(spaces)
    ensures ',' !in spaces && (spaces != "" ==> !Digit(spaces[0]))
  {
  }

  lemma {:induction false} PlainDoesNotMatch(value: string)
    requires ParsedValue(value) && (':' in value ==> !Digit(value[0]))
    ensures MatchIndexed(value).None?
  {
    hide Strip, DecimalValue, Space;
    var d := LeadingDigits(value);
    var i := d + LeadingSpaces(value[d..]);
    if d > 0 && i < |value| { assert value[i] in value; }
  }

  lemma {:induction false} EntryParses(entry: Entry, next: nat)
    requires entry.Valid()
    ensures ',' !in entry.Text()
    ensures ItemOf(entry.Text(), next)
            == match entry
               case Empty(_) => None
               case Plain(_, value, _) => Some(Item(next, value))
               case Labelled(_, index, _, _, value, _) => Some(Item(index, value))
  {
    hide Strip, MatchIndexed, Decimal, Space;
    match entry
    case Empty(around) =>
      Separators(around);
      StripsPadding(around, "", "");
      assert around + "" + "" == around;
    case Plain(before, value, after) =>
      Separators(before);
      Separators(after);
      StripsPadding(before, value, after);
      PlainDoesNotMatch(value);
    case Labelled(before, index, middle, gap, value, after) =>
      Separators(before);
      Separators(after);
      LabelMatches(index, middle, gap, value);
      LabelShape(Decimal(index), middle, gap, value);
      StripsPadding(before, Decimal(index) + middle + ":" + gap + value, after);
  }

  lemma {:induction false} EntriesParse(entries: seq<Entry>, next: nat)
    requires forall i :: 0 <= i < |entries| ==> entries[i].Valid()
    ensures ParseItems(Texts(entries), next) == Numbered(entries, next)
  {
    hide ItemOf, Entry.Valid, Entry.Text;
    if entries != [] {
      EntryParses(entries[0], next);
      assert Texts(entries)[1..] == Texts(entries[1..]);
      match entries[0]
      case Empty(_) => EntriesParse(entries[1..], next);
      case Plain(_, _, _) => EntriesParse(entries[1..], next + 1);
      case Labelled(_, index, _, _, _, _) => EntriesParse(entries[1..], index + 1);
    }
  }

  /** A written list, whatever the whitespace: empty entries are dropped, labelled values keep
      their index and other values continue from the one before. */
  lemma {:induction false} WrittenListParses(entries: seq<Entry>, start: nat)
    requires forall i :: 0 <= i < |entries| ==> entries[i].Valid()
    ensures ParseIndexedList(JoinWith(Texts(entries), ','), start) == Numbered(entries, start)
  {
    hide ItemOf, Entry.Valid, Entry.Text, SplitOn;
    if entries == [] {
      assert Texts(entries) == [];
      SplitOfHead("", ',', "");
      assert Strip("") == "";
      ParseStep([""], start);
      assert [""][1..] == [];
    } else {
      forall i | 0 <= i < |entries|
        ensures ',' !in Texts(entries)[i]
      {
        EntryParses(entries[i], 0);
      }
      SplitUndoesJoin(Texts(entries), ',');
      EntriesParse(entries, start);
    }
  }

  // ----- module lists -----

  predicate DistinctSlots(items: seq<Item>) {
    forall i, j :: 0 <= i < j < |items| ==> items[i].index != items[j].index
  }

  predicate SortedSlots(items: seq<Item>) {
    forall i, j :: 0 <= i < j < |items| ==> items[i].index <= items[j].index
  }

  function Insert(item: Item, items: seq<Item>): seq<Item> {
    if items == [] then [item]
    else if item.index < items[0].index then [item] + items
    else [items[0]] + Insert(item, items[1..])
  }

  function Sorted(items: seq<Item>): seq<Item> {
    if items == [] then [] else Insert(items[|items| - 1], Sorted(items[..|items| - 1]))
  }

  lemma {:induction false} InsertKeeps(item: Item, items: seq<Item>)
    ensures multiset(Insert(item, items)) == multiset{item} + multiset(items)
  {
    if items != [] && item.index >= items[0].index {
      InsertKeeps(item, items[1..]);
      assert items == [items[0]] + items[1..];
    }
  }

  lemma {:induction false} InsertSorts(item: Item, items: seq<Item>, low: nat)
    requires SortedSlots(items) && low <= item.index && forall i :: 0 <= i < |items| ==> low <= items[i].index
    ensures SortedSlots(Insert(item, items))
    ensures forall i :: 0 <= i < |Insert(item, items)| ==> low <= Insert(item, items)[i].index
  {
    if items != [] && item.index >= items[0].index { InsertSorts(item, items[1..], items[0].index); }
  }

  /** Sorting by slot loses and invents no module. */
  lemma {:induction false} SortedIsSorted(items: seq<Item>)
    ensures SortedSlots(Sorted(items)) && multiset(Sorted(items)) == multiset(items)
  {
    hide Insert;
    if items != [] {
      var n := |items| - 1;
      SortedIsSorted(items[..n]);
      InsertSorts(items[n], Sorted(items[..n]), 0);
      InsertKeeps(items[n], Sorted(items[..n]));
      assert items == items[..n] + [items[n]];
    }
  }

  /** Duplicate slots are refused; otherwise the modules come out in slot order. */
  function ModulesOf(items: seq<Item>): Option<seq<Item>> {
    if DistinctSlots(items) then Some(Sorted(items)) else None
  }

  function ModuleList(text: string): Option<seq<Item>> { ModulesOf(ParseIndexedList(text, 1)) }

  method SplitModuleList(rawModules: string) returns (modules: Option<seq<Item>>)
    ensures modules == ModuleList(rawModules)
  {
    hide ParseItems, Sorted, SplitOn;
    var items := SplitIndexedConfigList(rawModules, 1);
    var seen: set<nat> := {};
    for n := 0 to |items|
      invariant DistinctSlots(items[..n])
      invariant forall x :: x in seen <==> exists i :: 0 <= i < n && items[i].index == x
    {
      if items[n].index in seen {
        var i :| 0 <= i < n && items[i].index == items[n].index;
        assert !DistinctSlots(items);
        return None;
      }
      seen := seen + {items[n].index};
    }
    assert items[..|items|] == items;
    modules := Some(Sorted(items));
  }

  lemma {:induction false} LongestNewline(items: seq<Item>) returns (k: nat)
    requires !NoNewline(items)
    ensures k < |items| && '\n' in items[k].value
    ensures forall i :: 0 <= i < |items| && '\n' in items[i].value ==> |items[i].value| <= |items[k].value|
  {
    var n := |items| - 1;
    if NoNewline(items[..n]) {
      k := n;
    } else {
      k := LongestNewline(items[..n]);
      if '\n' in items[n].value && |items[n].value| > |items[k].value| { k := n; }
    }
  }

  /** Printed with a newline in some value, a list comes back with other modules, however sorted. */
  lemma {:induction false} NewlineChangesModules(items: seq<Item>, again: seq<Item>)
    requires !NoNewline(items) && |again| == |items|
    requires forall i :: 0 <= i < |items| ==>
               again[i].value == if '\n' in items[i].value then PrintItem(items[i]) else items[i].value
    ensures Sorted(again) != Sorted(items)
  {
    hide Sorted, PrintItem;
    var k := LongestNewline(items);
    LabelledValue(items[k]);
    SortedIsSorted(again);
    SortedIsSorted(items);
    assert again[k] in multiset(again);
    assert again[k] !in items;
  }

  lemma {:induction false} LabelledValue(item: Item)
    ensures |PrintItem(item)| > |item.value|
    ensures forall c :: c in item.value ==> c in PrintItem(item)
  {
  }

  /** The modules of a list, after the profile has printed it and parsed it again: the same
      modules in the same slots, or the same refusal, whenever no value has a newline; for
      distinct slots exactly then. */
  lemma {:induction false} ModuleListRoundTrip(text: string)
    ensures var items := ParseIndexedList(text, 1);
            && (NoNewline(items) ==> ModuleList(PrintList(items)) == ModuleList(text))
            && (DistinctSlots(items) ==> (ModuleList(PrintList(items)) == ModuleList(text) <==> NoNewline(items)))
            && ('\n' !in text ==> NoNewline(items))
  {
    hide Sorted, ParseItems, SplitOn, DistinctSlots, NoNewline, PrintItems;
    var items := ParseIndexedList(text, 1);
    IndexedListRoundTrip(text, 1, 1);
    if !NoNewline(items) {
      assert items != [] by { NothingHasNewline(); }
      PrintedAgain(text, 1, 1);
      NewlineChangesModules(items, ParseIndexedList(PrintList(items), 1));
    }
  }

  lemma {:induction false} NothingHasNewline()
    ensures NoNewline([])
  {
  }

  lemma {:induction false} PrintedAgain(text: string, start: nat, start': nat)
    requires ParseIndexedList(text, start) != []
    ensures var items := ParseIndexedList(text, start);
            var again := ParseIndexedList(PrintList(items), start');
            |again| == |items|
            && forall i :: 0 <= i < |items| ==>
                 again[i].value == if '\n' in items[i].value then PrintItem(items[i]) else items[i].value
  {
    hide ParseItems, SplitOn, PrintItem, ParsedValue;
    var items := ParseIndexedList(text, start);
    ParserProducesParsedValues(SplitOn(text, ','), start);
    PrintedWithoutComma(items);
    SplitUndoesJoin(PrintItems(items), ',');
    ReparsedValues(items, start');
  }

  lemma {:induction false} PrintedWithoutComma(items: seq<Item>)
    requires forall i :: 0 <= i < |items| ==> ParsedValue(items[i].value)
    ensures forall i :: 0 <= i < |items| ==> ',' !in PrintItems(items)[i]
  {
    hide PrintItem, ParsedValue;
    forall i | 0 <= i < |items|
      ensures ',' !in PrintItems(items)[i]
    {
      PrintedItem(items[i], 0);
    }
  }

  // ----- IO-Link port declarations -----

  datatype PortConfig = PortConfig(selector: string, device: string, profile: Option<nat>)

  function Lower(s: string): string {
    seq(|s|, i requires 0 <= i < |s| =>
      if 'A' <= s[i] <= 'Z' then (s[i] as int + 32) as char else s[i])
  }

  predicate NoDevice(name: string) { Lower(name) in {"", "none", "null", "-"} }

  /** An optionally signed decimal number. */
  function ParseInt(s: string): Option<int> {
    var digits := if s != "" && (s[0] == '+' || s[0] == '-') then s[1..] else s;
    if digits == "" || LeadingDigits(digits) < |digits| then None
    else Some(if s[0] == '-' then -(DecimalValue(digits) as int) else DecimalValue(digits))
  }

  function FromDeclaration(text: string): Option<PortConfig> {
    var parts := SplitOn(text, ':');
    if |parts| != 2 && |parts| != 3 then None
    else
      var selector, device := Strip(parts[0]), Strip(parts[1]);
      if selector == "" then None
      else if |parts| == 2 then Some(PortConfig(selector, device, None))
      else
        var profile := ParseInt(Strip(parts[2]));
        if profile.None? || profile.value < 0 || NoDevice(device) then None
        else Some(PortConfig(selector, device, Some(profile.value)))
  }

  function ToDeclaration(p: PortConfig): string {
    JoinWith([p.selector, p.device] + (if p.profile.Some? then [Decimal(p.profile.value)] else []), ':')
  }

  predicate DeclaredPort(p: PortConfig) {
    && p.selector != "" && Trimmed(p.selector) && ':' !in p.selector
    && Trimmed(p.device) && ':' !in p.device
    && (p.profile.Some? ==> !NoDevice(p.device))
  }

  lemma {:induction false} DeclarationsAreDeclared(text: string)
    requires FromDeclaration(text).Some?
    ensures DeclaredPort(FromDeclaration(text).value)
    ensures forall c :: c in FromDeclaration(text).value.selector + FromDeclaration(text).value.device ==> c in text
  {
  }

  lemma {:induction false} AllDigits(s: string)
    requires forall i :: 0 <= i < |s| ==> Digit(s[i])
    ensures LeadingDigits(s) == |s|
  {
    if s != "" { AllDigits(s[1..]); }
  }

  lemma {:induction false} DecimalParses(n: nat)
    ensures ParseInt(Decimal(n)) == Some(n) && Trimmed(Decimal(n)) && ':' !in Decimal(n) && ',' !in Decimal(n)
  {
    hide Decimal;
    AllDigits(Decimal(n));
    DecimalRoundTrip(n);
  }

  /** Every port a declaration gives prints as a declaration of that same port. */
  lemma {:induction false} PortRoundTrip(text: string)
    requires FromDeclaration(text).Some?
    ensures FromDeclaration(ToDeclaration(FromDeclaration(text).value)) == FromDeclaration(text)
  {
    DeclarationsAreDeclared(text);
    PrintedPort(FromDeclaration(text).value);
  }

  lemma {:induction false} PrintedPort(p: PortConfig)
    requires DeclaredPort(p)
    ensures FromDeclaration(ToDeclaration(p)) == Some(p)
  {
    hide FromDeclaration, Lower;
    WrittenPort(p);
  }

  /** A declaration of trimmed parts is accepted as it stands, except without a selector, or with a
      profile for no device: an empty name, "-", or "none" or "null" in any case. */
  lemma {:induction false} WrittenPort(p: PortConfig)
    requires Trimmed(p.selector) && ':' !in p.selector && Trimmed(p.device) && ':' !in p.device
    ensures var name := Lower(p.device);
            var nothing := name == "" || name == "-" || name == "none" || name == "null";
            FromDeclaration(ToDeclaration(p)) == if p.selector == "" || (p.profile.Some? && nothing) then None else Some(p)
  {
    hide Decimal, ParseInt, SplitOn, JoinWith, Strip, Trimmed, Lower;
    if p.profile.Some? {
      DecimalParses(p.profile.value);
      var parts := [p.selector, p.device, Decimal(p.profile.value)];
      assert [p.selector, p.device] + [Decimal(p.profile.value)] == parts;
      SplitUndoesJoin(parts, ':');
    } else {
      assert [p.selector, p.device] + [] == [p.selector, p.device];
      SplitUndoesJoin([p.selector, p.device], ':');
    }
  }

  // ----- port lists -----

  function SplitConfigList(text: string): seq<string> { NonEmpty(SplitOn(text, ',')) }

  function NonEmpty(raws: seq<string>): seq<string> {
    if raws == [] then []
    else (if Strip(raws[0]) == "" then [] else [Strip(raws[0])]) + NonEmpty(raws[1..])
  }

  /** The ports of a list, `None` when one declaration is invalid. */
  function PortsOf(declarations: seq<string>): Option<seq<PortConfig>> {
    if declarations == [] then Some([])
    else
      var head, tail := FromDeclaration(declarations[0]), PortsOf(declarations[1..]);
      if head.None? || tail.None? then None else Some([head.value] + tail.value)
  }

  function Declarations(ports: seq<PortConfig>): seq<string> {
    seq(|ports|, i requires 0 <= i < |ports| => ToDeclaration(ports[i]))
  }

  predicate ListedPort(p: PortConfig) { DeclaredPort(p) && ',' !in p.selector && ',' !in p.device }

  lemma {:induction false} SplitItemsAreClean(raws: seq<string>)
    requires forall i :: 0 <= i < |raws| ==> ',' !in raws[i]
    ensures forall i :: 0 <= i < |NonEmpty(raws)| ==> ',' !in NonEmpty(raws)[i]
  {
    if raws != [] { SplitItemsAreClean(raws[1..]); }
  }

  lemma {:induction false} PortsAreListed(declarations: seq<string>)
    requires PortsOf(declarations).Some? && forall i :: 0 <= i < |declarations| ==> ',' !in declarations[i]
    ensures forall i :: 0 <= i < |PortsOf(declarations).value| ==> ListedPort(PortsOf(declarations).value[i])
  {
    hide FromDeclaration;
    if declarations != [] {
      PortsAreListed(declarations[1..]);
      DeclarationsAreDeclared(declarations[0]);
      var p := FromDeclaration(declarations[0]).value;
      assert forall c :: c in p.selector ==> c in p.selector + p.device;
      assert forall c :: c in p.device ==> c in p.selector + p.device;
    }
  }

  lemma {:induction false} PrintedPortIsClean(p: PortConfig)
    requires ListedPort(p)
    ensures ToDeclaration(p) != "" && Trimmed(ToDeclaration(p)) && ',' !in ToDeclaration(p)
  {
    hide Decimal;
    if p.profile.Some? {
      var digits := Decimal(p.profile.value);
      DecimalParses(p.profile.value);
      assert [p.selector, p.device] + [digits] == [p.selector, p.device, digits];
      assert [p.selector, p.device, digits][1..] == [p.device, digits] && [p.device, digits][1..] == [digits];
      assert JoinWith([p.device, digits], ':') == p.device + [':'] + digits;
      assert ToDeclaration(p) == p.selector + [':'] + (p.device + [':'] + digits);
    } else {
      assert [p.selector, p.device] + [] == [p.selector, p.device];
      assert [p.selector, p.device][1..] == [p.device];
      assert JoinWith([p.device], ':') == p.device;
      assert ToDeclaration(p) == p.selector + [':'] + p.device;
    }
  }

  lemma {:induction false} ReparsePorts(ports: seq<PortConfig>)
    requires forall i :: 0 <= i < |ports| ==> ListedPort(ports[i])
    ensures NonEmpty(Declarations(ports)) == Declarations(ports)
    ensures PortsOf(Declarations(ports)) == Some(ports)
  {
    hide ToDeclaration, FromDeclaration, Strip, Trimmed;
    if ports != [] {
      ReparsePorts(ports[1..]);
      PrintedPortIsClean(ports[0]);
      PrintedPort(ports[0]);
      assert Declarations(ports)[1..] == Declarations(ports[1..]);
      assert ports == [ports[0]] + ports[1..];
    }
  }

  /** Every port list the parser produces survives printing and parsing again. */
  lemma {:induction false} PortListRoundTrip(text: string)
    requires PortsOf(SplitConfigList(text)).Some?
    ensures var ports := PortsOf(SplitConfigList(text)).value;
            PortsOf(SplitConfigList(JoinWith(Declarations(ports), ','))) == Some(ports)
  {
    hide SplitOn, ToDeclaration, FromDeclaration, Strip;
    SplitItemsAreClean(SplitOn(text, ','));
    PortsAreListed(SplitConfigList(text));
    var ports := PortsOf(SplitConfigList(text)).value;
    ReparsePorts(ports);
    if ports == [] {
      SplitOfHead("", ',', "");
      assert Strip("") == "";
      assert NonEmpty([""]) == [];
    } else {
      forall i | 0 <= i < |ports|
        ensures ',' !in Declarations(ports)[i]
      {
        PrintedPortIsClean(ports[i]);
      }
      SplitUndoesJoin(Declarations(ports), ',');
    }
  }
}
