/** The JavaScript values a JSON request body decodes to, and the three
    JavaScript conversions the routes apply to them: truthiness (`!x`),
    string conversion (template literals and `toString()`) and
    `Array.prototype.join`. */
module Js {

  /** A value of a decoded JSON body. `Undefined` stands for a property the
      body does not have. Numbers are integers (see README, "Left out"). */
  datatype JsValue =
    | Undefined
    | Null
    | Bool(b: bool)
    | Num(n: int)
    | Str(s: string)
    | Arr(items: seq<JsValue>)
    | Obj(fields: map<string, JsValue>)

  /** `req.body` after JSON decoding. */
  type Body = map<string, JsValue>

  /** Destructuring `const { k } = req.body`: an absent property reads as undefined. */
  function Field(body: Body, key: string): JsValue
  {
    if key in body then body[key] else Undefined
  }

  /** JavaScript truthiness: `!v` is `!Truthy(v)`. Every array and every
      object is truthy, the empty array included. */
  predicate Truthy(v: JsValue)
  {
    match v
    case Undefined => false
    case Null => false
    case Bool(b) => b
    case Num(n) => n != 0
    case Str(s) => s != ""
    case Arr(_) => true
    case Obj(_) => true
  }

  function Digit(d: nat): (c: char)
    requires d < 10
    ensures '0' <= c <= '9'
  {
    "0123456789"[d]
  }

  function DigitValue(c: char): nat
  {
    if '0' <= c <= '9' then (c as int - '0' as int) as nat else 0
  }

  /** Decimal text of a natural number, without leading zeros. */
  function NatText(n: nat): (s: string)
    ensures s != []
    ensures forall i :: 0 <= i < |s| ==> '0' <= s[i] <= '9'
    ensures s[0] == '0' ==> n == 0
    decreases n
  {
    if n < 10 then [Digit(n)] else NatText(n / 10) + [Digit(n % 10)]
  }

  /** Reads decimal digits back; the inverse of NatText. */
  function ParseNat(s: string): nat
    decreases |s|
  {
    if s == [] then 0 else ParseNat(s[..|s| - 1]) * 10 + DigitValue(s[|s| - 1])
  }

  lemma {:induction false} ParseNatText(n: nat)
    ensures ParseNat(NatText(n)) == n
    decreases n
  {
    var s := NatText(n);
    if n < 10 {
      assert s[..|s| - 1] == [];
    } else {
      assert s[..|s| - 1] == NatText(n / 10);
      ParseNatText(n / 10);
    }
  }

  /** Number-to-string conversion of an integer-valued JavaScript number.
      It agrees with JavaScript for every safe integer (|n| <= 2^53);
      beyond that JavaScript prints the shortest round-tripping digits
      instead (see README, "Left out"). */
  function IntText(n: int): (s: string)
    ensures s != []
    ensures s[0] == '-' <==> n < 0
  {
    if n < 0 then "-" + NatText(-n) else NatText(n)
  }

  /** An integer's text holds only digits and the sign, never a comma. */
  lemma IntTextHasNoComma(n: int)
    ensures forall i :: 0 <= i < |IntText(n)| ==> IntText(n)[i] != ','
  {
    if n < 0 {
      var t := NatText(-n);
      assert forall i :: 1 <= i < |IntText(n)| ==> IntText(n)[i] == t[i - 1];
    }
  }

  /** Reads a possibly signed decimal text back; the inverse of IntText. */
  function ParseInt(s: string): int
  {
    if s != [] && s[0] == '-' then -(ParseNat(s[1..]) as int) else ParseNat(s)
  }

  /** A leading '-' negates what follows. */
  lemma ParseSigned(t: string)
    ensures ParseInt("-" + t) == -(ParseNat(t) as int)
  {
    assert ("-" + t)[1..] == t;
  }

  lemma ParseUnsigned(n: nat)
    ensures ParseInt(NatText(n)) == n
  {
    var t := NatText(n);
    assert '0' <= t[0] <= '9';
    ParseNatText(n);
  }

  lemma ParseIntText(n: int)
    ensures ParseInt(IntText(n)) == n
  {
    if n < 0 {
      var m: nat := -n;
      var t := NatText(m);
      ParseSigned(t);
      ParseNatText(m);
      assert ParseNat(t) == m;
      assert IntText(n) == "-" + t;
    } else {
      assert IntText(n) == NatText(n);
      ParseUnsigned(n);
    }
  }

  /** Distinct numbers have distinct decimal texts. */
  lemma IntTextInjective(a: int, b: int)
    requires IntText(a) == IntText(b)
    ensures a == b
  {
    ParseIntText(a);
    ParseIntText(b);
  }

  /** JavaScript's ToString, as a template literal `${v}` or `v.toString()`
      applies it to a JSON value. An array converts as its `join(',')`. */
  function ToStr(v: JsValue): string
    decreases v, 1
  {
    match v
    case Undefined => "undefined"
    case Null => "null"
    case Bool(b) => if b then "true" else "false"
    case Num(n) => IntText(n)
    case Str(s) => s
    case Arr(items) => Join(v, ",", 0)
    case Obj(_) => "[object Object]"
  }

  /** `Array.prototype.join(sep)` on the elements of `arr` from index `from`
      on: null and undefined elements contribute the empty string. */
  function Join(arr: JsValue, sep: string, from: nat): string
    requires arr.Arr? && from <= |arr.items|
    decreases arr, 0, |arr.items| - from
  {
    if from == |arr.items| then ""
    else
      var x := arr.items[from];
      var piece := if x.Undefined? || x.Null? then "" else ToStr(x);
      if from + 1 == |arr.items| then piece else piece + sep + Join(arr, sep, from + 1)
  }

  /** `items.join(',')`. */
  function JoinWithComma(items: seq<JsValue>): string
  {
    Join(Arr(items), ",", 0)
  }

  /** A join of integers lists their decimal texts separated by commas. */
  lemma {:induction false} JoinOfTwoNumbers(a: int, b: int)
    ensures JoinWithComma([Num(a), Num(b)]) == IntText(a) + "," + IntText(b)
  {
    var arr := Arr([Num(a), Num(b)]);
    assert ToStr(Num(a)) == IntText(a) && ToStr(Num(b)) == IntText(b);
    assert Join(arr, ",", 1) == IntText(b);
    assert Join(arr, ",", 0) == IntText(a) + "," + Join(arr, ",", 1);
  }

  /** Number values, one per integer: the JSON array `[ids[0], ids[1], ...]`. */
  function Nums(ids: seq<int>): seq<JsValue>
  {
    seq(|ids|, i requires 0 <= i < |ids| => Num(ids[i]))
  }

  /** `s.split(sep)` for a one-character separator: the maximal pieces
      between separators, so one more piece than there are separators. */
  function Split(s: string, sep: char): (pieces: seq<string>)
    ensures |pieces| >= 1
    decreases |s|
  {
    if s == [] then [[]]
    else
      var rest := Split(s[1..], sep);
      if s[0] == sep then [[]] + rest
      else [[s[0]] + rest[0]] + rest[1..]
  }

  /** `s.split(',').map(Number)` on integer texts. */
  function ParseIds(s: string): seq<int>
  {
    var pieces := Split(s, ',');
    seq(|pieces|, i requires 0 <= i < |pieces| => ParseInt(pieces[i]))
  }

  lemma {:induction false} SplitNoSeparator(a: string, sep: char)
    requires forall i :: 0 <= i < |a| ==> a[i] != sep
    ensures Split(a, sep) == [a]
    decreases |a|
  {
    if a != [] {
      SplitNoSeparator(a[1..], sep);
      assert [a[0]] + a[1..] == a;
    }
  }

  lemma {:induction false} SplitAtSeparator(a: string, sep: char, b: string)
    requires forall i :: 0 <= i < |a| ==> a[i] != sep
    ensures Split(a + [sep] + b, sep) == [a] + Split(b, sep)
    decreases |a|
  {
    var s := a + [sep] + b;
    if a == [] {
      assert s[1..] == b;
    } else {
      assert s[1..] == a[1..] + [sep] + b;
      SplitAtSeparator(a[1..], sep, b);
      assert [a[0]] + a[1..] == a;
    }
  }

  /** Texts glued together with a one-character separator between them. */
  function Glue(texts: seq<string>, sep: char): string
    decreases |texts|
  {
    if texts == [] then []
    else if |texts| == 1 then texts[0]
    else texts[0] + [sep] + Glue(texts[1..], sep)
  }

  /** Splitting glued texts at the separator gives them back, when none of
      them holds the separator. */
  lemma {:induction false} SplitGlue(texts: seq<string>, sep: char)
    requires texts != []
    requires forall i, k :: 0 <= i < |texts| && 0 <= k < |texts[i]| ==> texts[i][k] != sep
    ensures Split(Glue(texts, sep), sep) == texts
    decreases |texts|
  {
    if |texts| == 1 {
      SplitNoSeparator(texts[0], sep);
    } else {
      assert forall k :: 0 <= k < |texts[0]| ==> texts[0][k] != sep;
      SplitGlue(texts[1..], sep);
      SplitAtSeparator(texts[0], sep, Glue(texts[1..], sep));
      assert [texts[0]] + texts[1..] == texts;
    }
  }

  /** The decimal texts of a list of integers. */
  function IntTexts(ids: seq<int>): seq<string>
  {
    seq(|ids|, i requires 0 <= i < |ids| => IntText(ids[i]))
  }

  /** Joining integers with ',' glues their decimal texts. */
  lemma {:induction false} JoinNumbersGlues(ids: seq<int>, from: nat)
    requires from < |ids|
    ensures Join(Arr(Nums(ids)), ",", from) == Glue(IntTexts(ids[from..]), ',')
    decreases |ids| - from
  {
    var arr := Arr(Nums(ids));
    var texts := IntTexts(ids[from..]);
    assert arr.items[from] == Num(ids[from]);
    assert texts[0] == IntText(ids[from]);
    if from + 1 < |ids| {
      JoinNumbersGlues(ids, from + 1);
      assert texts[1..] == IntTexts(ids[from + 1..]);
    }
  }

  /** The join of a non-empty list of integers reads back as that list;
      the join of the empty list is the empty text. */
  lemma JoinedNumbersReadBack(ids: seq<int>)
    ensures ids != [] ==> ParseIds(JoinWithComma(Nums(ids))) == ids
    ensures ids == [] ==> JoinWithComma(Nums(ids)) == ""
  {
    if ids != [] {
      var texts := IntTexts(ids);
      assert ids[0..] == ids;
      JoinNumbersGlues(ids, 0);
      forall i | 0 <= i < |texts|
        ensures forall k :: 0 <= k < |texts[i]| ==> texts[i][k] != ','
      {
        IntTextHasNoComma(ids[i]);
      }
      SplitGlue(texts, ',');
      forall j | 0 <= j < |ids|
        ensures ParseInt(texts[j]) == ids[j]
      {
        ParseIntText(ids[j]);
      }
    }
  }

  /** `${null}` is "null" but `[null].join(',')` is "": the two conversions
      the PATCH route applies to the same trait ids differ. */
  lemma NullConvertsDifferently()
    ensures ToStr(Null) == "null"
    ensures JoinWithComma([Null]) == ""
  {
  }
}
