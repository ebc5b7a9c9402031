/**
 The canonical text of a value: compact, keys sorted, numbers by value alone. A reader for that
 text gives the value back, so equal texts mean equal values and equal values have equal texts.
 */
module CanonicalJson {
  import opened Common
  import opened Decimals
  import opened NumberTokens
  import opened NumberReader
  import opened JsonStrings
  import opened StringOrder

  /** A Python value the printer accepts. A dict keeps its insertion order. */
  datatype Json =
    | Null
    | Bool(flag: bool)
    | Int(n: int)
    | Number(d: Decimal)
    | Text(s: string)
    | List(items: seq<Json>)
    | Object(members: seq<(string, Json)>)

  /** A dict holds each key once. */
  ghost predicate WellFormed(v: Json) {
    match v
    case List(items) => forall i :: 0 <= i < |items| ==> WellFormed(items[i])
    case Object(members) =>
      DistinctKeys(members) && forall i :: 0 <= i < |members| ==> WellFormed(members[i].1)
    case _ => true
  }

  // ----- printing -----

  function Join(texts: seq<string>): string {
    if texts == [] then ""
    else if |texts| == 1 then texts[0]
    else texts[0] + "," + Join(texts[1..])
  }

  function JoinMembers(members: seq<(string, string)>): string {
    if members == [] then ""
    else
      var member := Quoted(members[0].0) + ":" + members[0].1;
      if |members| == 1 then member else member + "," + JoinMembers(members[1..])
  }

  function OfInt(n: int): Decimal {
    if n < 0 then Decimal(true, -n, 0) else Decimal(false, n, 0)
  }

  /** `str` of an integer. */
  function IntText(n: int): string {
    if n < 0 then "-" + Digits(-n) else Digits(n)
  }

  /** `canonical_json`. */
  function Print(v: Json): string {
    match v
    case Null => "null"
    case Bool(flag) => if flag then "true" else "false"
    case Int(n) => IntText(n)
    case Number(d) => NumberToken(d)
    case Text(s) => Quoted(s)
    case List(items) =>
      "[" + Join(seq(|items|, i requires 0 <= i < |items| => Print(items[i]))) + "]"
    case Object(members) =>
      var printed := seq(|members|, i requires 0 <= i < |members| => (members[i].0, Print(members[i].1)));
      "{" + JoinMembers(SortByKey(printed)) + "}"
  }

  // ----- what a text stands for -----

  /** The value with its numbers in normal form and its members in key order. */
  function Norm(v: Json): Json {
    match v
    case Int(n) => Number(Normalize(OfInt(n)))
    case Number(d) => Number(Normalize(d))
    case List(items) => List(seq(|items|, i requires 0 <= i < |items| => Norm(items[i])))
    case Object(members) =>
      Object(SortByKey(seq(|members|, i requires 0 <= i < |members| => (members[i].0, Norm(members[i].1)))))
    case _ => v
  }

  predicate Numeric(v: Json) {
    v.Int? || v.Number?
  }

  function AsDecimal(v: Json): Decimal
    requires Numeric(v)
  {
    if v.Int? then OfInt(v.n) else v.d
  }

  /** Equal values: numbers by value, lists in order, dicts by their keys. */
  ghost predicate Same(a: Json, b: Json)
    decreases a, 0
  {
    if Numeric(a) then Numeric(b) && NumEq(AsDecimal(a), AsDecimal(b))
    else if a.List? then
      b.List? && |a.items| == |b.items| && forall i :: 0 <= i < |a.items| ==> Same(a.items[i], b.items[i])
    else if a.Object? then
      b.Object? && |a.members| == |b.members|
      && forall i :: 0 <= i < |a.members| ==> Holds(b.members, a.members[i])
    else a == b
  }

  /** A member of `b` with the key of `member` and an equal value. */
  ghost predicate Holds(b: seq<(string, Json)>, member: (string, Json))
    decreases member, 1
  {
    exists j :: 0 <= j < |b| && SameMember(member, b[j])
  }

  ghost predicate SameMember(x: (string, Json), y: (string, Json))
    decreases x, 0
  {
    x.0 == y.0 && Same(x.1, y.1)
  }

  // ----- reading -----

  function ReadLiteral(s: string, word: string, v: Json): (r: Option<(Json, string)>)
    requires word != ""
    ensures r.Some? ==> |r.value.1| < |s|
  {
    if word <= s then Some((v, s[|word|..])) else None
  }

  function ReadText(s: string): (r: Option<(Json, string)>)
    ensures r.Some? ==> |r.value.1| < |s|
  {
    match ReadBody(s)
    case None => None
    case Some((text, rest)) => Some((Text(text), rest))
  }

  function ReadNumeric(s: string): (r: Option<(Json, string)>)
    ensures r.Some? ==> |r.value.1| < |s|
  {
    match ReadNumber(s)
    case None => None
    case Some((d, rest)) => Some((Number(d), rest))
  }

  /** One value at the start of `s`, and what follows it. */
  function ReadValue(s: string): (r: Option<(Json, string)>)
    ensures r.Some? ==> |r.value.1| < |s|
    decreases |s|, 0
  {
    if s == "" then None
    else if s[0] == '-' || IsDigit(s[0]) then ReadNumeric(s)
    else if s[0] == '\"' then ReadText(s[1..])
    else if s[0] == '[' then ReadList(s[1..])
    else if s[0] == '{' then ReadObject(s[1..])
    else if s[0] == 'n' then ReadLiteral(s, "null", Null)
    else if s[0] == 't' then ReadLiteral(s, "true", Bool(true))
    else if s[0] == 'f' then ReadLiteral(s, "false", Bool(false))
    else None
  }

  function ReadList(s: string): (r: Option<(Json, string)>)
    ensures r.Some? ==> |r.value.1| < |s|
    decreases |s|, 2
  {
    if s != "" && s[0] == ']' then Some((List([]), s[1..]))
    else
      match ReadItems(s)
      case None => None
      case Some((items, rest)) => Some((List(items), rest))
  }

  function ReadItems(s: string): (r: Option<(seq<Json>, string)>)
    ensures r.Some? ==> |r.value.1| < |s|
    decreases |s|, 1
  {
    match ReadValue(s)
    case None => None
    case Some((v, rest)) =>
      if rest == "" then None
      else if rest[0] == ']' then Some(([v], rest[1..]))
      else if rest[0] != ',' then None
      else
        match ReadItems(rest[1..])
        case None => None
        case Some((items, last)) => Some(([v] + items, last))
  }

  function ReadObject(s: string): (r: Option<(Json, string)>)
    ensures r.Some? ==> |r.value.1| < |s|
    decreases |s|, 3
  {
    if s != "" && s[0] == '}' then Some((Object([]), s[1..]))
    else
      match ReadMembers(s)
      case None => None
      case Some((members, rest)) => Some((Object(members), rest))
  }

  /** A quoted key, a colon and a value. */
  function ReadMember(s: string): (r: Option<((string, Json), string)>)
    ensures r.Some? ==> |r.value.1| < |s|
    decreases |s|, 1
  {
    if s == "" || s[0] != '\"' then None
    else
      match ReadBody(s[1..])
      case None => None
      case Some((key, rest)) =>
        if rest == "" || rest[0] != ':' then None
        else
          match ReadValue(rest[1..])
          case None => None
          case Some((v, last)) => Some(((key, v), last))
  }

  function ReadMembers(s: string): (r: Option<(seq<(string, Json)>, string)>)
    ensures r.Some? ==> |r.value.1| < |s|
    decreases |s|, 2
  {
    match ReadMember(s)
    case None => None
    case Some((member, rest)) =>
      if rest == "" then None
      else if rest[0] == '}' then Some(([member], rest[1..]))
      else if rest[0] != ',' then None
      else
        match ReadMembers(rest[1..])
        case None => None
        case Some((members, last)) => Some(([member] + members, last))
  }

  /** The value of a whole text. */
  function Parse(s: string): Option<Json> {
    match ReadValue(s)
    case None => None
    case Some((v, rest)) => if rest == "" then Some(v) else None
  }

  // ----- reading back what was printed -----

  /** `text`, wherever it ends a value, reads as `v`. */
  ghost predicate Reads(text: string, v: Json) {
    forall rest: string :: Delimited(rest) ==> ReadValue(text + rest) == Some((v, rest))
  }

  lemma {:induction false} ReadsNotEmpty(text: string, v: Json)
    requires Reads(text, v)
    ensures text != "" && text[0] != ']'
  {
    var whole := text + "]";
    assert Delimited("]");
    assert ReadValue(whole) == Some((v, "]"));
    if text == "" || text[0] == ']' {
      NoValueAt(whole);
    }
  }

  lemma {:induction false} NoValueAt(s: string)
    requires s != "" && s[0] == ']'
    ensures ReadValue(s) == None
  {
  }

  lemma {:induction false} ReadsLastItem(text: string, v: Json, rest: string)
    requires Reads(text, v)
    ensures ReadItems(text + "]" + rest) == Some(([v], rest))
  {
    var after := "]" + rest;
    assert text + "]" + rest == text + after;
    assert Delimited(after) && after[1..] == rest;
  }

  lemma {:induction false} ReadsFirstItem(text: string, v: Json, tail: string, others: seq<Json>, rest: string)
    requires Reads(text, v) && ReadItems(tail) == Some((others, rest))
    ensures ReadItems(text + ("," + tail)) == Some(([v] + others, rest))
  {
    var after := "," + tail;
    assert Delimited(after) && after[1..] == tail;
  }

  lemma {:induction false} RegroupTail(first: string, others: string, close: string, rest: string)
    ensures first + "," + others + close + rest == first + ("," + (others + close + rest))
  {
  }

  lemma {:induction false} JoinCons(texts: seq<string>, rest: string)
    requires |texts| > 1
    ensures Join(texts) + "]" + rest == texts[0] + ("," + (Join(texts[1..]) + "]" + rest))
  {
  }

  lemma {:induction false} ReadsItems(texts: seq<string>, values: seq<Json>, rest: string)
    requires |texts| == |values| > 0
    requires forall i :: 0 <= i < |texts| ==> Reads(texts[i], values[i])
    ensures ReadItems(Join(texts) + "]" + rest) == Some((values, rest))
  {
    if |texts| == 1 {
      ReadsLastItem(texts[0], values[0], rest);
      assert values == [values[0]];
    } else {
      var tail := Join(texts[1..]) + "]" + rest;
      ReadsItems(texts[1..], values[1..], rest);
      ReadsFirstItem(texts[0], values[0], tail, values[1..], rest);
      JoinCons(texts, rest);
      assert values == [values[0]] + values[1..];
    }
  }

  lemma {:induction false} ReadsAfterKey(key: string, quoted: string, text: string, v: Json, rest: string)
    requires Reads(text, v) && Delimited(rest)
    requires quoted != "" && quoted[0] == '\"' && ReadBody(quoted[1..]) == Some((key, ":" + (text + rest)))
    ensures ReadMember(quoted) == Some(((key, v), rest))
  {
    assert (":" + (text + rest))[1..] == text + rest;
  }

  lemma {:induction false} RegroupMember(key: string, text: string, rest: string)
    ensures key + ":" + text + rest == key + (":" + (text + rest))
  {
  }

  lemma {:induction false} ReadsMember(key: string, text: string, v: Json, rest: string)
    requires Reads(text, v) && Delimited(rest)
    ensures ReadMember(Quoted(key) + ":" + text + rest) == Some(((key, v), rest))
  {
    var after := ":" + (text + rest);
    RegroupMember(Quoted(key), text, rest);
    ReadsQuoted(key, after);
    ReadsAfterKey(key, Quoted(key) + after, text, v, rest);
  }

  ghost predicate MembersRead(texts: seq<(string, string)>, values: seq<(string, Json)>) {
    |texts| == |values| &&
    forall i :: 0 <= i < |texts| ==> texts[i].0 == values[i].0 && Reads(texts[i].1, values[i].1)
  }

  lemma {:induction false} ReadsLastMember(key: string, text: string, v: Json, rest: string)
    requires Reads(text, v)
    ensures ReadMembers(Quoted(key) + ":" + text + "}" + rest) == Some(([(key, v)], rest))
  {
    var member, after := Quoted(key) + ":" + text, "}" + rest;
    assert member + "}" + rest == member + after;
    ReadsMember(key, text, v, after);
    assert after[1..] == rest;
  }

  lemma {:induction false} ReadsFirstMember(key: string, text: string, v: Json, tail: string, others: seq<(string, Json)>, rest: string)
    requires Reads(text, v) && ReadMembers(tail) == Some((others, rest))
    ensures ReadMembers(Quoted(key) + ":" + text + ("," + tail)) == Some(([(key, v)] + others, rest))
  {
    ReadsMember(key, text, v, "," + tail);
    assert ("," + tail)[1..] == tail;
  }

  lemma {:induction false} JoinMembersCons(texts: seq<(string, string)>, rest: string)
    requires |texts| > 1
    ensures JoinMembers(texts) + "}" + rest
         == Quoted(texts[0].0) + ":" + texts[0].1 + ("," + (JoinMembers(texts[1..]) + "}" + rest))
  {
    RegroupTail(Quoted(texts[0].0) + ":" + texts[0].1, JoinMembers(texts[1..]), "}", rest);
  }

  lemma {:induction false} ReadsMembers(texts: seq<(string, string)>, values: seq<(string, Json)>, rest: string)
    requires texts != [] && MembersRead(texts, values)
    ensures ReadMembers(JoinMembers(texts) + "}" + rest) == Some((values, rest))
  {
    var (key, text) := texts[0];
    var v := values[0].1;
    if |texts| == 1 {
      ReadsLastMember(key, text, v, rest);
      assert values == [(key, v)];
    } else {
      var tail := JoinMembers(texts[1..]) + "}" + rest;
      MembersTail(texts, values);
      ReadsMembers(texts[1..], values[1..], rest);
      ReadsFirstMember(key, text, v, tail, values[1..], rest);
      JoinMembersCons(texts, rest);
    }
  }

  lemma {:induction false} MembersTail(texts: seq<(string, string)>, values: seq<(string, Json)>)
    requires texts != [] && MembersRead(texts, values)
    ensures MembersRead(texts[1..], values[1..])
    ensures values == [(texts[0].0, values[0].1)] + values[1..]
  {
  }

  // ----- round trip -----

  lemma {:induction false} ReadsNumber(d: Decimal)
    ensures Reads(NumberToken(d), Number(Normalize(d)))
  {
    forall rest: string | Delimited(rest)
      ensures ReadValue(NumberToken(d) + rest) == Some((Number(Normalize(d)), rest))
    {
      ReadToken(d, rest);
      NumericStart(NumberToken(d) + rest);
    }
  }

  lemma {:induction false} NotSpecial(s: string)
    requires s != "" && (s[0] == '-' || IsDigit(s[0]))
    ensures ReadValue(s) == ReadNumeric(s)
  {
  }

  lemma {:induction false} NumericStart(s: string)
    requires ReadNumber(s).Some?
    ensures ReadValue(s) == ReadNumeric(s)
  {
    NumberStart(s);
    NotSpecial(s);
  }

  /** An integer prints as the decimal of the same value. */
  lemma {:induction false} IntIsNumber(n: int)
    ensures IntText(n) == NumberToken(OfInt(n))
  {
    var d := OfInt(n);
    DigitsStart(d.coefficient);
    FixedWhole(d.negative, Digits(d.coefficient));
    NoDot(d.negative, Digits(d.coefficient), 0);
    if d.coefficient == 0 {
      ZeroNumber(d);
    } else {
      assert (Sign(d.negative) + Digits(d.coefficient))[|Sign(d.negative)|] == Digits(d.coefficient)[0];
    }
  }

  lemma {:induction false} ReadsWord(word: string, v: Json)
    requires (word == "null" && v == Null) || (word == "true" && v == Bool(true)) || (word == "false" && v == Bool(false))
    ensures Reads(word, v)
  {
    forall rest: string | Delimited(rest) ensures ReadValue(word + rest) == Some((v, rest)) {
      var s := word + rest;
      assert s[0] == word[0];
      assert s[..|word|] == word && s[|word|..] == rest;
    }
  }

  lemma {:induction false} ReadsText(text: string)
    ensures Reads(Quoted(text), Text(text))
  {
    forall rest: string | Delimited(rest) ensures ReadValue(Quoted(text) + rest) == Some((Text(text), rest)) {
      ReadsQuoted(text, rest);
    }
  }

  lemma {:induction false} ReadsList(texts: seq<string>, values: seq<Json>)
    requires |texts| == |values|
    requires forall i :: 0 <= i < |texts| ==> Reads(texts[i], values[i])
    ensures Reads("[" + Join(texts) + "]", List(values))
  {
    forall rest: string | Delimited(rest)
      ensures ReadValue("[" + Join(texts) + "]" + rest) == Some((List(values), rest))
    {
      ListOpens(Join(texts), rest);
      if texts == [] {
        assert (Join(texts) + "]" + rest)[1..] == rest;
      } else {
        ReadsItems(texts, values, rest);
        ReadsNotEmpty(texts[0], values[0]);
        assert (Join(texts) + "]" + rest)[0] == texts[0][0];
      }
    }
  }

  lemma {:induction false} ListOpens(inner: string, rest: string)
    ensures ReadValue("[" + inner + "]" + rest) == ReadList(inner + "]" + rest)
  {
    var s := "[" + inner + "]" + rest;
    assert s[0] == '[' && s[1..] == inner + "]" + rest;
  }

  lemma {:induction false} ObjectOpens(inner: string, rest: string)
    ensures ReadValue("{" + inner + "}" + rest) == ReadObject(inner + "}" + rest)
  {
    var s := "{" + inner + "}" + rest;
    assert s[0] == '{' && s[1..] == inner + "}" + rest;
  }

  lemma {:induction false} MembersStart(texts: seq<(string, string)>, rest: string)
    requires texts != []
    ensures (JoinMembers(texts) + "}" + rest)[0] == '\"'
  {
  }

  lemma {:induction false} ReadsObject(texts: seq<(string, string)>, values: seq<(string, Json)>)
    requires MembersRead(texts, values)
    ensures Reads("{" + JoinMembers(texts) + "}", Object(values))
  {
    forall rest: string | Delimited(rest)
      ensures ReadValue("{" + JoinMembers(texts) + "}" + rest) == Some((Object(values), rest))
    {
      ObjectOpens(JoinMembers(texts), rest);
      if texts == [] {
        assert (JoinMembers(texts) + "}" + rest)[1..] == rest;
      } else {
        ReadsMembers(texts, values, rest);
        MembersStart(texts, rest);
      }
    }
  }

  function PrintMembers(members: seq<(string, Json)>): seq<(string, string)> {
    seq(|members|, i requires 0 <= i < |members| => (members[i].0, Print(members[i].1)))
  }

  function NormMembers(members: seq<(string, Json)>): seq<(string, Json)> {
    seq(|members|, i requires 0 <= i < |members| => (members[i].0, Norm(members[i].1)))
  }

  /** Every printed value reads as its normal form. */
  lemma {:induction false} PrintReads(v: Json)
    ensures Reads(Print(v), Norm(v))
  {
    match v
    case Null => ReadsWord("null", Null);
    case Bool(flag) => ReadsWord(if flag then "true" else "false", v);
    case Int(n) =>
      IntIsNumber(n);
      ReadsNumber(OfInt(n));
    case Number(d) => ReadsNumber(d);
    case Text(s) => ReadsText(s);
    case List(items) =>
      forall i | 0 <= i < |items| ensures Reads(Print(items[i]), Norm(items[i])) {
        PrintReads(items[i]);
      }
      ReadsList(seq(|items|, i requires 0 <= i < |items| => Print(items[i])),
                seq(|items|, i requires 0 <= i < |items| => Norm(items[i])));
    case Object(members) =>
      forall i | 0 <= i < |members| ensures Reads(Print(members[i].1), Norm(members[i].1)) {
        PrintReads(members[i].1);
      }
      var texts, values := PrintMembers(members), NormMembers(members);
      SortMatched(texts, values, Reads);
      ReadsObject(SortByKey(texts), SortByKey(values));
      PrintObject(members);
  }

  lemma {:induction false} PrintObject(members: seq<(string, Json)>)
    ensures Print(Object(members)) == "{" + JoinMembers(SortByKey(PrintMembers(members))) + "}"
    ensures Norm(Object(members)) == Object(SortByKey(NormMembers(members)))
  {
    assert PrintMembers(members)
        == seq(|members|, i requires 0 <= i < |members| => (members[i].0, Print(members[i].1)));
    assert NormMembers(members)
        == seq(|members|, i requires 0 <= i < |members| => (members[i].0, Norm(members[i].1)));
  }

  /** Reading a printed value gives its normal form. */
  lemma {:induction false} RoundTrip(v: Json)
    ensures Parse(Print(v)) == Some(Norm(v))
  {
    PrintReads(v);
    assert Delimited("");
    assert Print(v) + "" == Print(v);
  }

  // ----- the normal form decides equality -----

  lemma {:induction false} NormMembersDistinct(members: seq<(string, Json)>)
    requires DistinctKeys(members)
    ensures DistinctKeys(NormMembers(members))
  {
  }

  /** Two well-formed values have the same normal form exactly when they are equal. */
  lemma {:induction false} NormIff(a: Json, b: Json)
    requires WellFormed(a) && WellFormed(b)
    ensures Norm(a) == Norm(b) <==> Same(a, b)
    decreases a
  {
    if Numeric(a) && Numeric(b) {
      NormalizeIff(AsDecimal(a), AsDecimal(b));
    } else if a.List? && b.List? {
      NormListIff(a, b);
    } else if a.Object? && b.Object? {
      NormObjectIff(a, b);
    }
  }

  lemma {:induction false} NormListIff(a: Json, b: Json)
    requires WellFormed(a) && WellFormed(b) && a.List? && b.List?
    ensures Norm(a) == Norm(b) <==> Same(a, b)
    decreases a, 0
  {
    forall i | 0 <= i < |a.items| && i < |b.items|
      ensures Norm(a.items[i]) == Norm(b.items[i]) <==> Same(a.items[i], b.items[i])
    {
      NormIff(a.items[i], b.items[i]);
    }
    var xs, ys := Norm(a).items, Norm(b).items;
    assert forall i :: 0 <= i < |xs| ==> xs[i] == Norm(a.items[i]);
    assert forall i :: 0 <= i < |ys| ==> ys[i] == Norm(b.items[i]);
  }

  ghost predicate SameMembers(a: seq<(string, Json)>, b: seq<(string, Json)>) {
    |a| == |b| && forall i :: 0 <= i < |a| ==> Holds(b, a[i])
  }

  lemma {:induction false} SameObject(a: Json, b: Json)
    requires a.Object? && b.Object?
    ensures Same(a, b) <==> SameMembers(a.members, b.members)
  {
  }

  lemma {:induction false} MembersIff(a: seq<(string, Json)>, b: seq<(string, Json)>)
    requires forall i, j :: 0 <= i < |a| && 0 <= j < |b| ==>
               (Norm(a[i].1) == Norm(b[j].1) <==> Same(a[i].1, b[j].1))
    ensures (|a| == |b| && forall x :: x in NormMembers(a) ==> x in NormMembers(b)) <==> SameMembers(a, b)
  {
    if |a| == |b| && forall x :: x in NormMembers(a) ==> x in NormMembers(b) {
      MembersFound(a, b);
    }
    if SameMembers(a, b) {
      MembersKept(a, b);
    }
  }

  lemma {:induction false} MembersFound(a: seq<(string, Json)>, b: seq<(string, Json)>)
    requires forall i, j :: 0 <= i < |a| && 0 <= j < |b| && Norm(a[i].1) == Norm(b[j].1) ==> Same(a[i].1, b[j].1)
    requires |a| == |b| && forall x :: x in NormMembers(a) ==> x in NormMembers(b)
    ensures SameMembers(a, b)
  {
    var ys := NormMembers(b);
    forall i | 0 <= i < |a| ensures Holds(b, a[i]) {
      assert NormMembers(a)[i] in ys;
      var j :| 0 <= j < |ys| && ys[j] == NormMembers(a)[i];
      assert SameMember(a[i], b[j]);
    }
  }

  lemma {:induction false} MembersKept(a: seq<(string, Json)>, b: seq<(string, Json)>)
    requires forall i, j :: 0 <= i < |a| && 0 <= j < |b| && Same(a[i].1, b[j].1) ==> Norm(a[i].1) == Norm(b[j].1)
    requires SameMembers(a, b)
    ensures forall x :: x in NormMembers(a) ==> x in NormMembers(b)
  {
    var xs := NormMembers(a);
    forall x | x in xs ensures x in NormMembers(b) {
      var i :| 0 <= i < |xs| && xs[i] == x;
      assert Holds(b, a[i]);
      var j :| 0 <= j < |b| && SameMember(a[i], b[j]);
      assert NormMembers(b)[j] == x;
    }
  }

  lemma {:induction false} NormObjectIff(a: Json, b: Json)
    requires WellFormed(a) && WellFormed(b) && a.Object? && b.Object?
    ensures Norm(a) == Norm(b) <==> Same(a, b)
    decreases a, 0
  {
    var xs, ys := NormMembers(a.members), NormMembers(b.members);
    PrintObject(a.members);
    PrintObject(b.members);
    NormMembersDistinct(a.members);
    NormMembersDistinct(b.members);
    SortIff(xs, ys);
    forall i, j | 0 <= i < |a.members| && 0 <= j < |b.members|
      ensures Norm(a.members[i].1) == Norm(b.members[j].1) <==> Same(a.members[i].1, b.members[j].1)
    {
      NormIff(a.members[i].1, b.members[j].1);
    }
    MembersIff(a.members, b.members);
    SameObject(a, b);
  }

  // ----- the text is decided by the value -----

  ghost predicate PrintsAs(text: string, v: Json) {
    text == Print(v)
  }

  /** A value and its normal form have the same text. */
  lemma {:induction false} PrintOfNorm(v: Json)
    ensures Print(Norm(v)) == Print(v)
  {
    match v
    case Int(n) =>
      IntIsNumber(n);
      TokenOfNormal(OfInt(n), Normalize(OfInt(n)));
    case Number(d) => TokenOfNormal(d, Normalize(d));
    case List(items) =>
      forall i | 0 <= i < |items| ensures Print(Norm(items[i])) == Print(items[i]) {
        PrintOfNorm(items[i]);
      }
      var norms := Norm(v).items;
      assert seq(|norms|, i requires 0 <= i < |norms| => Print(norms[i]))
          == seq(|items|, i requires 0 <= i < |items| => Print(items[i]));
    case Object(members) =>
      forall i | 0 <= i < |members| ensures Print(Norm(members[i].1)) == Print(members[i].1) {
        PrintOfNorm(members[i].1);
      }
      SortedTexts(members);
    case _ =>
  }

  lemma {:induction false} SortedTexts(members: seq<(string, Json)>)
    requires forall i :: 0 <= i < |members| ==> Print(Norm(members[i].1)) == Print(members[i].1)
    ensures Print(Norm(Object(members))) == Print(Object(members))
  {
    var texts, values := PrintMembers(members), NormMembers(members);
    var sorted := SortByKey(values);
    SortMatched(texts, values, PrintsAs);
    assert PrintMembers(sorted) == SortByKey(texts);
    SortTwice(texts);
    PrintObject(members);
    PrintObject(sorted);
  }

  /** Two values have the same text exactly when they are equal. */
  lemma {:induction false} TextIff(a: Json, b: Json)
    requires WellFormed(a) && WellFormed(b)
    ensures Print(a) == Print(b) <==> Same(a, b)
  {
    RoundTrip(a);
    RoundTrip(b);
    PrintOfNorm(a);
    PrintOfNorm(b);
    NormIff(a, b);
  }

  // ----- the order of keys -----

  lemma {:induction false} NormKeysAscend(members: seq<(string, Json)>) returns (read: seq<(string, Json)>)
    requires DistinctKeys(members)
    ensures Norm(Object(members)) == Object(read) && |read| == |members|
    ensures forall i, j :: 0 <= i < j < |read| ==> StrLe(read[i].0, read[j].0) && read[i].0 != read[j].0
    ensures forall i :: 0 <= i < |members| ==> (members[i].0, Norm(members[i].1)) in read
  {
    var values := NormMembers(members);
    read := SortByKey(values);
    PrintObject(members);
    NormMembersDistinct(members);
    SortedKeys(values);
    forall i | 0 <= i < |members| ensures (members[i].0, Norm(members[i].1)) in read {
      assert values[i] == (members[i].0, Norm(members[i].1));
      assert values[i] in multiset(values);
      assert values[i] in multiset(read);
    }
  }

  /** The text of a dict lists its keys in string order, each once, with the values they have. */
  lemma {:induction false} KeysAscend(members: seq<(string, Json)>) returns (read: seq<(string, Json)>)
    requires DistinctKeys(members)
    ensures Parse(Print(Object(members))) == Some(Object(read)) && |read| == |members|
    ensures forall i, j :: 0 <= i < j < |read| ==> StrLe(read[i].0, read[j].0) && read[i].0 != read[j].0
    ensures forall i :: 0 <= i < |members| ==> (members[i].0, Norm(members[i].1)) in read
  {
    read := NormKeysAscend(members);
    RoundTrip(Object(members));
  }

  lemma {:induction false} SortedKeys(values: seq<(string, Json)>)
    requires DistinctKeys(values)
    ensures var read := SortByKey(values);
            && multiset(read) == multiset(values) && |read| == |values|
            && forall i, j :: 0 <= i < j < |read| ==> StrLe(read[i].0, read[j].0) && read[i].0 != read[j].0
  {
    var read := SortByKey(values);
    KeyOrder<Json>();
    Sorting.SortSorts(values, KeyLe);
    Sorting.SameLength(read, values);
    assert Sorting.Distinct(values);
    Sorting.DistinctByMultiset(values, read);
    forall i, j | 0 <= i < j < |read| ensures StrLe(read[i].0, read[j].0) && read[i].0 != read[j].0 {
      assert KeyLe(read[i], read[j]);
      assert read[i] in values && read[j] in values && read[i] != read[j];
      var k :| 0 <= k < |values| && values[k] == read[i];
      var l :| 0 <= l < |values| && values[l] == read[j];
      assert k < l || l < k;
    }
  }
}
