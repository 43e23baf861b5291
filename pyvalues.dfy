/**
 * The Python values that flow through the configuration code, and the
 * built-ins it applies to them: `int()`, `bool()`, `str()`, `==`, `in`,
 * iteration, subscription and building a `dict` from key/value pairs.
 */
module PyValues {
  import opened Wrappers
  import opened Errors
  import opened PyStrings

  /** The chat-platform classes a configuration value can be an instance of. */
  datatype EntityKind = GuildKind | UserKind | ChannelKind | RoleKind

  /** A chat-platform object: its class, its `.id`, and what `str()` and `repr()` show of it. */
  datatype Entity = Entity(kind: EntityKind, id: int, text: string, shown: string)

  /** A Python value. A `dict` keeps its entries in insertion order. */
  datatype Value =
    | VNone
    | VInt(i: int)
    | VBool(b: bool)
    | VStr(s: string)
    | VList(items: seq<Value>)
    | VTuple(items: seq<Value>)
    | VDict(entries: seq<Pair>)
    | VEntity(entity: Entity)

  datatype Pair = Pair(key: Value, val: Value)

  /** `bool(v)`. */
  function Truthy(v: Value): bool {
    match v
    case VNone => false
    case VInt(i) => i != 0
    case VBool(b) => b
    case VStr(s) => |s| > 0
    case VList(xs) => |xs| > 0
    case VTuple(xs) => |xs| > 0
    case VDict(es) => |es| > 0
    case VEntity(_) => true
  }

  predicate IsNumber(v: Value) {
    v.VInt? || v.VBool?
  }

  /** The integer an `int` or a `bool` stands for. */
  function NumberOf(v: Value): int
    requires IsNumber(v)
  {
    if v.VInt? then v.i else if v.b then 1 else 0
  }

  /** `a == b`: numbers compare by value across `int` and `bool`, other values structurally. */
  predicate PyEq(a: Value, b: Value) {
    if IsNumber(a) && IsNumber(b) then NumberOf(a) == NumberOf(b) else a == b
  }

  /** `a == n` for an integer `n`. */
  predicate EqInt(a: Value, n: int) {
    IsNumber(a) && NumberOf(a) == n
  }

  /** `v in ns` for a list of integers `ns`. */
  predicate InInts(v: Value, ns: seq<int>) {
    exists j :: 0 <= j < |ns| && EqInt(v, ns[j])
  }

  // ---------------------------------------------------------------------
  // int()
  // ---------------------------------------------------------------------

  predicate IsDigit(c: char) {
    '0' <= c <= '9'
  }

  function DigitValue(c: char): nat {
    if IsDigit(c) then (c as int) - ('0' as int) else 0
  }

  function DigitChar(d: nat): char
    requires d < 10
  {
    ('0' as int + d) as char
  }

  /** Decimal digits, possibly grouped by single underscores between digits,
      as `int()` accepts them. */
  predicate DigitRun(d: string) {
    && |d| > 0 && IsDigit(d[0]) && IsDigit(d[|d| - 1])
    && forall i :: 0 <= i < |d| ==> IsDigit(d[i]) || (d[i] == '_' && i + 1 < |d| && IsDigit(d[i + 1]))
  }

  /** The number the digits of `d` spell, underscores skipped. */
  function DigitsValue(d: string): nat
    decreases |d|
  {
    if |d| == 0 then 0
    else if d[|d| - 1] == '_' then DigitsValue(d[..|d| - 1])
    else DigitsValue(d[..|d| - 1]) * 10 + DigitValue(d[|d| - 1])
  }

  /** `int(s)` for a string: surrounding whitespace, an optional sign, then a digit run. */
  function ParseInt(s: string): Option<int> {
    ParseSigned(StripSpace(s))
  }

  /** An optional sign, then a digit run. */
  function ParseSigned(t: string): Option<int> {
    if |t| > 0 && (t[0] == '+' || t[0] == '-') then
      var n: int := DigitsValue(t[1..]);
      if DigitRun(t[1..]) then Some(if t[0] == '-' then -n else n) else None
    else if DigitRun(t) then Some(DigitsValue(t))
    else None
  }

  /** `int(v)`: a malformed string raises `ValueError`, a value of another type `TypeError`. */
  function IntOf(v: Value): (r: Result<int, Error>)
    ensures r.Ok? <==> IsNumber(v) || (v.VStr? && ParseInt(v.s).Some?)
    ensures r.Err? ==> (r.error == ValueError <==> v.VStr?)
    ensures IsNumber(v) ==> r == Ok(NumberOf(v))
  {
    match v
    case VInt(i) => Ok(i)
    case VBool(b) => Ok(if b then 1 else 0)
    case VStr(s) => (match ParseInt(s) case Some(n) => Ok(n) case None => Err(ValueError))
    case _ => Err(TypeError)
  }

  // ---------------------------------------------------------------------
  // str() and repr()
  // ---------------------------------------------------------------------

  /** The decimal digits of a natural number. */
  function NatDecimal(n: nat): (r: string)
    ensures |r| > 0
  {
    if n < 10 then [DigitChar(n)] else NatDecimal(n / 10) + [DigitChar(n % 10)]
  }

  /** `str(i)` for an integer. */
  function Decimal(i: int): string {
    if i < 0 then "-" + NatDecimal(-i) else NatDecimal(i)
  }

  /** `str(v)`. A string inside a container is shown by `repr()`, in single quotes. */
  function StrOf(v: Value): string
    decreases v, 1, 0
  {
    match v
    case VNone => "None"
    case VInt(i) => Decimal(i)
    case VBool(b) => if b then "True" else "False"
    case VStr(s) => s
    case VList(xs) => "[" + ReprItems(v, xs) + "]"
    case VTuple(xs) => if |xs| == 1 then "(" + Repr(xs[0]) + ",)" else "(" + ReprItems(v, xs) + ")"
    case VDict(es) => "{" + ReprEntries(v, es) + "}"
    case VEntity(e) => e.text
  }

  /** `repr(v)`. */
  function Repr(v: Value): string
    decreases v, 2, 0
  {
    match v
    case VStr(s) => "'" + s + "'"
    case VEntity(e) => e.shown
    case _ => StrOf(v)
  }

  /** `", ".join(repr(x) for x in xs)`. */
  function ReprItems(ghost parent: Value, xs: seq<Value>): string
    requires forall k :: 0 <= k < |xs| ==> xs[k] < parent
    decreases parent, 0, |xs|
  {
    if |xs| == 0 then ""
    else if |xs| == 1 then Repr(xs[0])
    else Repr(xs[0]) + ", " + ReprItems(parent, xs[1..])
  }

  /** `", ".join(f"{k!r}: {v!r}" for k, v in es)`. */
  function ReprEntries(ghost parent: Value, es: seq<Pair>): string
    requires forall k :: 0 <= k < |es| ==> es[k].key < parent && es[k].val < parent
    decreases parent, 0, |es|
  {
    if |es| == 0 then ""
    else
      var first := Repr(es[0].key) + ": " + Repr(es[0].val);
      if |es| == 1 then first else first + ", " + ReprEntries(parent, es[1..])
  }

  // ---------------------------------------------------------------------
  // Iteration, subscription, dict construction
  // ---------------------------------------------------------------------

  /** What `for x in v` visits, or `None` when `v` is not iterable (`TypeError`). */
  function Iterate(v: Value): (r: Option<seq<Value>>)
    ensures r.Some? <==> v.VList? || v.VTuple? || v.VStr? || v.VDict?
    ensures v.VList? || v.VTuple? ==> r == Some(v.items)
  {
    match v
    case VList(xs) => Some(xs)
    case VTuple(xs) => Some(xs)
    case VStr(s) => Some(seq(|s|, k requires 0 <= k < |s| => VStr([s[k]])))
    case VDict(es) => Some(seq(|es|, k requires 0 <= k < |es| => es[k].key))
    case _ => None
  }

  /** The first position of a key equal to `k`. */
  function KeyIndex(d: seq<Pair>, k: Value): (r: Option<nat>)
    ensures r.Some? ==> r.value < |d| && PyEq(d[r.value].key, k)
    ensures r.Some? ==> forall j :: 0 <= j < r.value ==> !PyEq(d[j].key, k)
    ensures r.None? ==> forall j :: 0 <= j < |d| ==> !PyEq(d[j].key, k)
  {
    if |d| == 0 then None
    else if PyEq(d[0].key, k) then Some(0)
    else match KeyIndex(d[1..], k)
      case None => None
      case Some(j) => Some(j + 1)
  }

  /** `v[n]` for an integer index `n >= 0`. */
  function Index(v: Value, n: nat): (r: Result<Value, Error>)
    ensures (v.VList? || v.VTuple?) && n < |v.items| ==> r == Ok(v.items[n])
    ensures r.Err? && r.error == IndexError ==> v.VList? || v.VTuple? || v.VStr?
    ensures r.Err? && r.error == KeyError ==> v.VDict?
  {
    match v
    case VList(xs) => if n < |xs| then Ok(xs[n]) else Err(IndexError)
    case VTuple(xs) => if n < |xs| then Ok(xs[n]) else Err(IndexError)
    case VStr(s) => if n < |s| then Ok(VStr([s[n]])) else Err(IndexError)
    case VDict(es) =>
      (match KeyIndex(es, VInt(n)) case Some(j) => Ok(es[j].val) case None => Err(KeyError))
    case _ => Err(TypeError)
  }

  /** Whether `v` can be a dict key. */
  predicate Hashable(v: Value)
    decreases v
  {
    match v
    case VList(_) => false
    case VDict(_) => false
    case VTuple(xs) => forall k :: 0 <= k < |xs| ==> Hashable(xs[k])
    case _ => true
  }

  /** `d.update({p.key: p.val})`: an existing equal key keeps its place and takes the new value. */
  function DictInsert(d: seq<Pair>, p: Pair): seq<Pair> {
    match KeyIndex(d, p.key)
    case Some(j) => d[j := Pair(d[j].key, p.val)]
    case None => d + [p]
  }

  /** Building a dict from pairs in order, as a dict comprehension does; an
      unhashable key raises `TypeError`. */
  function DictFromPairs(ps: seq<Pair>): Result<seq<Pair>, Error>
    decreases |ps|
  {
    if |ps| == 0 then Ok([])
    else
      match DictFromPairs(ps[..|ps| - 1])
      case Err(e) => Err(e)
      case Ok(d) =>
        var p := ps[|ps| - 1];
        if Hashable(p.key) then Ok(DictInsert(d, p)) else Err(TypeError)
  }

  /** The entries of a Python dict: hashable keys, no two equal. */
  predicate DictKeys(es: seq<Pair>) {
    && (forall k :: 0 <= k < |es| ==> Hashable(es[k].key))
    && (forall j, k :: 0 <= j < k < |es| ==> !PyEq(es[j].key, es[k].key))
  }

  // ---------------------------------------------------------------------
  // Lemmas
  // ---------------------------------------------------------------------

  /** The digits of a natural number form a digit run. */
  lemma {:induction false} NatDecimalIsRun(n: nat)
    ensures DigitRun(NatDecimal(n))
    ensures forall k :: 0 <= k < |NatDecimal(n)| ==> IsDigit(NatDecimal(n)[k])
  {
    if n >= 10 {
      NatDecimalIsRun(n / 10);
    }
  }

  /** Reading back the digits of a natural number gives the number. */
  lemma {:induction false} NatDecimalValue(n: nat)
    ensures DigitsValue(NatDecimal(n)) == n
  {
    if n >= 10 {
      NatDecimalValue(n / 10);
      var d := NatDecimal(n);
      assert d[..|d| - 1] == NatDecimal(n / 10);
    }
  }

  lemma NoSpaceStrip(t: string)
    requires NoSpace(t)
    ensures StripSpace(t) == t
  {
    if t != [] {
      assert !IsSpace(t[0]) && !IsSpace(t[|t| - 1]);
    }
  }

  lemma DigitsNoSpace(d: string)
    requires forall k :: 0 <= k < |d| ==> IsDigit(d[k])
    ensures NoSpace(d)
  {
  }

  /** The digits of a natural number read back as that number. */
  lemma ParseNatDecimal(n: nat)
    ensures ParseSigned(NatDecimal(n)) == Some(n)
  {
    var t := NatDecimal(n);
    NatDecimalIsRun(n);
    NatDecimalValue(n);
    assert IsDigit(t[0]);
  }

  /** A minus sign and the digits of a natural number read back as its negation. */
  lemma ParseNegDecimal(n: nat)
    ensures ParseSigned("-" + NatDecimal(n)) == Some(-(n as int))
  {
    var d := NatDecimal(n);
    var t := "-" + d;
    NatDecimalIsRun(n);
    NatDecimalValue(n);
    assert t[0] == '-' && t[1..] == d;
  }

  lemma DecimalNoSpace(i: int)
    ensures NoSpace(Decimal(i))
  {
    var n: nat := if i < 0 then -i else i;
    var d := NatDecimal(n);
    NatDecimalIsRun(n);
    DigitsNoSpace(d);
    if i < 0 {
      var t := "-" + d;
      forall k | 0 <= k < |t| ensures !IsSpace(t[k]) {
        if k > 0 { assert t[k] == d[k - 1]; }
      }
    }
  }

  /** `int(str(i)) == i`. */
  lemma IntOfDecimal(i: int)
    ensures IntOf(VStr(Decimal(i))) == Ok(i)
  {
    DecimalNoSpace(i);
    NoSpaceStrip(Decimal(i));
    if i < 0 {
      ParseNegDecimal(-i);
    } else {
      ParseNatDecimal(i);
    }
  }

  /** Building a dict from the entries of a dict gives them back unchanged. */
  lemma {:induction false} DictFromDict(es: seq<Pair>)
    requires DictKeys(es)
    ensures DictFromPairs(es) == Ok(es)
    decreases |es|
  {
    if |es| > 0 {
      var init := es[..|es| - 1];
      assert DictKeys(init);
      DictFromDict(init);
      var last := es[|es| - 1];
      assert KeyIndex(init, last.key).None? by {
        forall j | 0 <= j < |init| ensures !PyEq(init[j].key, last.key) {
          assert init[j] == es[j];
        }
      }
      assert init + [last] == es;
    }
  }

  /** Every key given to `DictFromPairs` is in the result, with the value of
      the last pair that has an equal key. */
  lemma {:induction false} DictFromPairsLast(ps: seq<Pair>, k: nat)
    requires DictFromPairs(ps).Ok? && k < |ps|
    requires forall j :: k < j < |ps| ==> !PyEq(ps[j].key, ps[k].key)
    ensures exists m :: 0 <= m < |DictFromPairs(ps).value| && PyEq(DictFromPairs(ps).value[m].key, ps[k].key)
              && DictFromPairs(ps).value[m].val == ps[k].val
    decreases |ps|
  {
    var init := ps[..|ps| - 1];
    var d := DictFromPairs(init).value;
    var p := ps[|ps| - 1];
    var r := DictFromPairs(ps).value;
    assert r == DictInsert(d, p);
    if k == |ps| - 1 {
      match KeyIndex(d, p.key)
      case Some(j) =>
        assert r[j].key == d[j].key && r[j].val == p.val;
        assert PyEq(r[j].key, p.key);
      case None =>
        assert r[|d|] == p;
        assert PyEq(p.key, p.key);
    } else {
      DictFromPairsLast(init, k);
      var m :| 0 <= m < |d| && PyEq(d[m].key, ps[k].key) && d[m].val == ps[k].val;
      assert !PyEq(p.key, ps[k].key);
      PyEqNumbers(d[m].key, ps[k].key, p.key);
      assert r[m] == d[m];
    }
  }

  /** `PyEq` is transitive in the way a key lookup needs it. */
  lemma PyEqNumbers(a: Value, b: Value, c: Value)
    requires PyEq(a, b) && !PyEq(c, b)
    ensures !PyEq(a, c) && !PyEq(c, a)
  {
  }
}
