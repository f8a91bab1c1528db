/**
 * Integer merge keys. A contribution's numbers are decoded as float64, the live object's as int64, and
 * the %v verb prints the two differently from a million on.
 */
module NumericKeys {
  import opened Json
  import opened FieldPath
  import opened PathText
  import opened ClientSideApply
  import opened ApplyRuns
  import opened ApplyLoss

  /** Every integer up to here is a float64. */
  const MAX_EXACT := 0x20_0000_0000_0000

  const MILLION := 1_000_000

  function Stripped(digits: string): (r: string)
    ensures digits != "" ==> r != ""
  {
    if |digits| > 1 && digits[|digits| - 1] == '0' then Stripped(digits[..|digits| - 1]) else digits
  }

  /** One digit, and the others behind a point. */
  function Pointed(digits: string): string
  {
    if |digits| > 1 then digits[..1] + "." + digits[1..] else digits
  }

  function Padded(exponent: nat): string
  {
    if exponent < 10 then "0" + DigitsOf(exponent) else DigitsOf(exponent)
  }

  function Exponential(digits: string): string
    requires digits != ""
  {
    Pointed(Stripped(digits)) + "e+" + Padded(|digits| - 1)
  }

  /** The shortest form: plain below a million. */
  function FloatDigits(n: nat): string
  {
    if n < MILLION then DigitsOf(n) else Exponential(DigitsOf(n))
  }

  /** The text %v gives a float64 that holds an integer. */
  function FloatText(n: int): string
    requires -MAX_EXACT <= n <= MAX_EXACT
  {
    if n < 0 then "-" + FloatDigits(-n) else FloatDigits(n)
  }

  lemma {:induction false} ItoaHasNoExponent(n: int)
    ensures 'e' !in Itoa(n)
  {
    var digits := DigitsOf(if n < 0 then -n else n);
    assert forall c | c in digits :: IsDigit(c);
  }

  lemma {:induction false} ExponentialHasOne(digits: string)
    requires digits != ""
    ensures 'e' in Exponential(digits)
  {
    assert Exponential(digits)[|Pointed(Stripped(digits))|] == 'e';
  }

  /** The two printings agree on exactly the integers below a million. */
  lemma {:induction false} TextsAgree(n: int)
    requires -MAX_EXACT <= n <= MAX_EXACT
    ensures FloatText(n) == Itoa(n) <==> -MILLION < n < MILLION
  {
    var digits := DigitsOf(if n < 0 then -n else n);
    ItoaHasNoExponent(n);
    ExponentialHasOne(digits);
    if !(-MILLION < n < MILLION) {
      assert 'e' in Exponential(digits) && (FloatText(n) == Exponential(digits) || FloatText(n) == "-" + Exponential(digits));
    }
  }

  // ---- The live object's numbers ----

  predicate Digits(s: string)
  {
    s != "" && forall c | c in s :: IsDigit(c)
  }

  function Zeros(n: nat): string
  {
    if n == 0 then "" else Zeros(n - 1) + "0"
  }

  function WithoutPoint(s: string): string
  {
    if |s| > 1 && s[1] == '.' then s[..1] + s[2..] else s
  }

  /** The digits of an integer printed with an exponent. */
  function Expanded(text: string): Option<string>
  {
    var e := IndexByte(text, 'e');
    if e < 0 || |text| < e + 3 || text[e + 1] != '+' then None else
    var mantissa, exponent := WithoutPoint(text[..e]), text[e + 2..];
    if !Digits(mantissa) || !Digits(exponent) || |mantissa| > DigitsValue(exponent) + 1 then None
    else Some(mantissa + Zeros(DigitsValue(exponent) + 1 - |mantissa|))
  }

  /** The text of a number once the API server has stored it and it is read again: integers are int64 then. */
  function LiveText(text: string): string
  {
    var negative := text != "" && text[0] == '-';
    match Expanded(if negative then text[1..] else text)
    case None => text
    case Some(digits) => if Digits(digits) && DigitsValue(digits) <= MAX_INT then (if negative then "-" else "") + digits else text
  }

  function Live(j: Json): Json
  {
    match j
    case Num(text) => Num(LiveText(text))
    case Obj(m) => Obj(map f | f in m :: Live(m[f]))
    case Arr(es) => Arr(seq(|es|, i requires 0 <= i < |es| => Live(es[i])))
    case _ => j
  }

  lemma {:induction false} ExpandedStays(text: string)
    requires 'e' !in text
    ensures LiveText(text) == text
  {
    if text != "" { assert forall c | c in text[1..] :: c in text; }
  }

  lemma {:induction false} ZerosOnly(n: nat)
    ensures |Zeros(n)| == n && forall c | c in Zeros(n) :: c == '0'
  {
    if n > 0 { ZerosOnly(n - 1); }
  }

  lemma {:induction false} StrippedZeros(digits: string)
    requires digits != ""
    ensures |Stripped(digits)| <= |digits| && Stripped(digits) + Zeros(|digits| - |Stripped(digits)|) == digits
    ensures Stripped(digits)[0] == digits[0]
  {
    if |digits| > 1 && digits[|digits| - 1] == '0' {
      StrippedZeros(digits[..|digits| - 1]);
      assert digits == digits[..|digits| - 1] + "0";
    } else {
      assert digits + "" == digits;
    }
  }

  lemma {:induction false} PaddedValue(exponent: nat)
    ensures Digits(Padded(exponent)) && DigitsValue(Padded(exponent)) == exponent
  {
    DigitsRoundTrip(exponent);
    if exponent < 10 {
      var text := "0" + DigitsOf(exponent);
      assert text[..1] == "0" && "0"[..0] == "";
      assert DigitsValue("0") == 0;
    }
  }

  lemma {:induction false} ExpandedParts(front: string, back: string, mantissa: string)
    requires 'e' !in front && WithoutPoint(front) == mantissa && Digits(mantissa) && Digits(back) && |mantissa| <= DigitsValue(back) + 1
    ensures Expanded(front + "e+" + back) == Some(mantissa + Zeros(DigitsValue(back) + 1 - |mantissa|))
  {
    var text := front + "e+" + back;
    assert text == front + ['e'] + ("+" + back);
    IndexByteAt(front, 'e', "+" + back);
    assert text[..|front|] == front && text[|front| + 1] == '+' && text[|front| + 2..] == back;
  }

  lemma {:induction false} PointTakenOut(mantissa: string)
    requires Digits(mantissa)
    ensures WithoutPoint(Pointed(mantissa)) == mantissa && 'e' !in Pointed(mantissa) && Pointed(mantissa)[0] == mantissa[0]
  {
    var front := Pointed(mantissa);
    if |mantissa| > 1 {
      assert front[..1] == mantissa[..1] && front[2..] == mantissa[1..];
      assert mantissa == mantissa[..1] + mantissa[1..];
    }
    forall c | c in front ensures c != 'e' { assert c in mantissa || c == '.'; }
  }

  lemma {:induction false} StrippedDigits(digits: string)
    requires Digits(digits)
    ensures Digits(Stripped(digits))
  {
    StrippedZeros(digits);
    forall c | c in Stripped(digits) ensures IsDigit(c) { assert c in Stripped(digits) + Zeros(|digits| - |Stripped(digits)|); }
  }

  /** The exponent form expands to the digits. */
  lemma {:induction false} ExponentialExpands(digits: string)
    requires Digits(digits)
    ensures Expanded(Exponential(digits)) == Some(digits) && Exponential(digits)[0] == digits[0]
  {
    var mantissa := Stripped(digits);
    StrippedZeros(digits);
    StrippedDigits(digits);
    PaddedValue(|digits| - 1);
    PointTakenOut(mantissa);
    ExpandedParts(Pointed(mantissa), Padded(|digits| - 1), mantissa);
  }

  /** Whatever a contribution prints of an integer, the live object prints its digits. */
  lemma {:induction false} FloatIsRead(n: int)
    requires -MAX_EXACT <= n <= MAX_EXACT
    ensures LiveText(FloatText(n)) == Itoa(n)
  {
    if -MILLION < n < MILLION {
      ItoaHasNoExponent(n);
      TextsAgree(n);
      ExpandedStays(Itoa(n));
    } else {
      DigitsRoundTrip(if n < 0 then -n else n);
      DigitsAreRead(DigitsOf(if n < 0 then -n else n));
    }
  }

  lemma {:induction false} DigitsAreRead(digits: string)
    requires Digits(digits) && DigitsValue(digits) <= MAX_INT
    ensures LiveText(Exponential(digits)) == digits && LiveText("-" + Exponential(digits)) == "-" + digits
  {
    var text := Exponential(digits);
    ExponentialExpands(digits);
    assert digits[0] in digits && text[0] != '-';
    assert ("-" + text)[1..] == text && "" + digits == digits;
  }

  lemma {:induction false} LiveTextTwice(text: string)
    ensures LiveText(LiveText(text)) == LiveText(text)
  {
    if LiveText(text) != text {
      var live := LiveText(text);
      assert forall c | c in live :: c == '-' || IsDigit(c);
      ExpandedStays(live);
    }
  }

  /** What has been read from the API server stays as it is. */
  lemma {:induction false} LiveTwice(j: Json)
    ensures Live(Live(j)) == Live(j)
    decreases j
  {
    match j
    case Num(text) => LiveTextTwice(text);
    case Obj(m) =>
      forall f | f in m ensures Live(Live(m[f])) == Live(m[f]) { LiveTwice(m[f]); }
    case Arr(es) =>
      forall i | 0 <= i < |es| ensures Live(Live(es[i])) == Live(es[i]) { LiveTwice(es[i]); }
    case _ =>
  }

  // ---- A list somewhere in a document ----

  /** The way to a list: at least one field, and fields only. */
  predicate Way(front: Path)
  {
    front != [] && forall s | s in front :: s.IsField()
  }

  /** The document with another list there. */
  function WithList(c: Json, front: Path, list: seq<Json>): Json
    requires Way(front)
  {
    SetAt(c, front, Arr(list)).tree
  }

  lemma {:induction false} WayDown(front: Path)
    requires Way(front)
    ensures front[0].IsField() && (|front| > 1 ==> Way(front[1..]) && front[1].IsField())
  {
    assert front[0] in front;
    assert forall s | s in front[1..] :: s in front;
    if |front| > 1 { assert front[1] in front; }
  }

  lemma {:induction false} ElementHere(list: seq<Json>, claim: Segment, v: Json)
    requires claim.IsKeyMatch()
    ensures SetAt(Arr(list), [claim], v) == Edit(Arr(Grown(list, claim)[Position(list, claim) := v]), true)
    ensures var i := FindByKey(list, claim.key, claim.val);
      && Get(Arr(list), [claim]) == (if i < 0 then None else Some(list[i]))
      && DeleteAt(Arr(list), [claim]) == (if i < 0 then Edit(Arr(list), false) else Edit(Arr(list[..i] + list[i + 1..]), true))
  {
    assert [claim][1..] == [];
  }

  /** One field further from the list. */
  lemma {:induction false} ElementBelow(m: map<string, Json>, f: Segment, r: Path, v: Json)
    requires f.IsField() && f.name in m && r != [] && !m[f.name].Null?
    ensures var child := m[f.name];
      && SetAt(Obj(m), [f] + r, v) == Edit(Obj(m[f.name := SetAt(child, r, v).tree]), SetAt(child, r, v).ok)
      && DeleteAt(Obj(m), [f] + r) == Edit(Obj(m[f.name := DeleteAt(child, r).tree]), DeleteAt(child, r).ok)
      && Get(Obj(m), [f] + r) == Get(child, r)
  {
    assert ([f] + r)[1..] == r;
  }

  /** What sets, deletes and reads of one element come to in the list that holds it. */
  lemma {:induction false} ElementOps(c: Json, front: Path, list: seq<Json>, claim: Segment, v: Json)
    requires Way(front) && claim.IsKeyMatch() && Get(c, front) == Some(Arr(list))
    ensures SetAt(c, front + [claim], v) == Edit(WithList(c, front, Grown(list, claim)[Position(list, claim) := v]), true)
    ensures var i := FindByKey(list, claim.key, claim.val);
      && Get(c, front + [claim]) == (if i < 0 then None else Some(list[i]))
      && DeleteAt(c, front + [claim]) ==
           (if i < 0 then Edit(c, false) else Edit(WithList(c, front, list[..i] + list[i + 1..]), true))
    decreases |front|
  {
    var f, m := front[0], c.fields;
    WayDown(front);
    var child := m[f.name];
    assert m[f.name := child] == m;
    if |front| > 1 {
      assert front + [claim] == [f] + (front[1..] + [claim]);
      ElementOps(child, front[1..], list, claim, v);
      ElementBelow(m, f, front[1..] + [claim], v);
    } else {
      assert front + [claim] == [f] + [claim] && Get(child, []) == Some(child);
      ElementHere(list, claim, v);
      ElementBelow(m, f, [claim], v);
    }
  }

  /** Lists put in one after the other, and what is read of the last; the list that was there changes nothing. */
  lemma {:induction false} WithListAgain(c: Json, front: Path, list: seq<Json>, more: seq<Json>)
    requires Way(front) && Get(c, front).Some? && Get(c, front).value.Arr?
    ensures Get(WithList(c, front, list), front) == Some(Arr(list))
    ensures WithList(WithList(c, front, list), front, more) == WithList(c, front, more)
    ensures WithList(c, front, Get(c, front).value.elems) == c
    decreases |front|
  {
    WayDown(front);
    var f, child := front[0].name, c.fields[front[0].name];
    if |front| > 1 {
      assert !child.Null?;
      WithListAgain(child, front[1..], list, more);
      var next := WithList(child, front[1..], list);
      assert !next.Null?;
      assert c.fields[f := next][f := WithList(next, front[1..], more)] == c.fields[f := WithList(child, front[1..], more)];
    } else {
      assert c.fields[f := Arr(list)][f := Arr(more)] == c.fields[f := Arr(more)];
    }
    assert c.fields[f := child] == c.fields;
  }

  lemma {:induction false} LiveList(c: Json, front: Path, list: seq<Json>)
    requires Way(front) && Get(c, front).Some? && Get(c, front).value.Arr? && Live(c) == c
    ensures Live(WithList(c, front, list)) == WithList(c, front, Live(Arr(list)).elems)
    ensures Live(Get(c, front).value) == Get(c, front).value
    decreases |front|
  {
    WayDown(front);
    var f, child := front[0].name, c.fields[front[0].name];
    assert Live(c).fields[f] == Live(child) == child;
    if |front| > 1 {
      assert !child.Null?;
      LiveList(child, front[1..], list);
    }
    var below := WithList(c, front, list).fields[f];
    assert WithList(c, front, list).fields == c.fields[f := below];
    forall g | g in c.fields ensures Live(c.fields[g]) == c.fields[g] { assert Live(c).fields[g] == Live(c.fields[g]); }
    assert Live(Obj(c.fields[f := below])).fields == c.fields[f := Live(below)];
  }

  lemma {:induction false} LiveAppended(list: seq<Json>, e: Json)
    requires Live(Arr(list)) == Arr(list)
    ensures Live(Arr(list + [e])) == Arr(list + [Live(e)])
  {
    forall i | 0 <= i < |list| ensures Live(list[i]) == list[i] { assert Live(Arr(list)).elems[i] == Live(list[i]); }
  }

  function Copies(e: Json, n: nat): seq<Json>
  {
    if n == 0 then [] else Copies(e, n - 1) + [e]
  }

  lemma {:induction false} Appended(list: seq<Json>, claim: Segment, e: Json)
    requires claim.IsKeyMatch() && FindByKey(list, claim.key, claim.val) < 0
    ensures Grown(list, claim)[Position(list, claim) := e] == list + [e]
    ensures FindByKey(list + [e], claim.key, claim.val) == if Matches(e, claim.key, claim.val) then |list| else -1
  {
    var made := Obj(map[claim.key := Str(claim.val)]);
    assert (list + [made])[|list| := e] == list + [e];
    var r := FindByKey(list + [e], claim.key, claim.val);
    assert (list + [e])[|list|] == e;
    assert forall j | 0 <= j < |list| :: (list + [e])[j] == list[j];
  }

  // ---- Applying the element again and again ----

  /** One apply, and the object as the API server then has it. */
  function Applied(w: World, id: Id, c: Contribution): World
  {
    var next := Step(w, Apply(id, c)).0;
    next.(doc := Live(next.doc))
  }

  function AppliedOften(w: World, id: Id, c: Contribution, times: nat): World
  {
    if times == 0 then w else Applied(AppliedOften(w, id, c, times - 1), id, c)
  }

  /** The world in which the contributor's one claim is on record, without a prior, and the list is as given. */
  function Recorded(w: World, id: Id, p: Path, list: seq<Json>): World
    requires |p| > 1 && Way(p[..|p| - 1])
  {
    World(WithList(w.doc, p[..|p| - 1], list), w.records[id := Record([Print(p)], map[], true)])
  }

  /** A contribution of one list element by a key match, into a live list that has none to match. */
  ghost predicate Contributes(w: World, c: Contribution, p: Path, list: seq<Json>, e: Json)
  {
    && |p| > 1 && Way(p[..|p| - 1]) && p[|p| - 1].IsKeyMatch() && Printable(p)
    && c.paths == [p] && Get(c.obj, p) == Some(e) && Matches(e, p[|p| - 1].key, p[|p| - 1].val)
    && Live(w.doc) == w.doc && Get(w.doc, p[..|p| - 1]) == Some(Arr(list))
    && FindByKey(list, p[|p| - 1].key, p[|p| - 1].val) < 0
  }

  /** Its claim finds the element once it has been read again. */
  predicate FoundLive(p: Path, e: Json)
  {
    |p| > 1 && p[|p| - 1].IsKeyMatch() && Matches(Live(e), p[|p| - 1].key, p[|p| - 1].val)
  }

  lemma {:induction false} KeyIsRead(e: Json, key: string, text: string)
    requires e.Obj? && key in e.fields && e.fields[key] == Num(text)
    ensures Live(e).Obj? && key in Live(e).fields && Live(e).fields[key] == Num(LiveText(text))
    ensures forall val :: Matches(Live(e), key, val) <==> LiveText(text) == val
  {
    assert Live(Num(text)) == Num(LiveText(text));
  }

  /** The element is found in the live list by its claim if and only if its key is below a million. */
  lemma {:induction false} LiveElement(e: Json, key: string, n: int)
    requires -MAX_EXACT <= n <= MAX_EXACT && e.Obj? && key in e.fields && e.fields[key] == Num(FloatText(n))
    ensures Matches(Live(e), key, FloatText(n)) <==> -MILLION < n < MILLION
    ensures Live(e).fields[key] == Num(Itoa(n))
  {
    FloatIsRead(n);
    TextsAgree(n);
    KeyIsRead(e, key, FloatText(n));
  }

  /** One update with a single claim, seen from the list. */
  lemma {:induction false} OneUpdate(doc: Json, c: Contribution, p: Path, list: seq<Json>, e: Json, previous: seq<Path>, captured: bool)
    requires |p| > 1 && Way(p[..|p| - 1]) && p[|p| - 1].IsKeyMatch() && (previous == [] || previous == [p])
    requires c.paths == [p] && Get(c.obj, p) == Some(e) && Get(doc, p[..|p| - 1]) == Some(Arr(list))
    requires captured || FindByKey(list, p[|p| - 1].key, p[|p| - 1].val) < 0
    ensures var claim := p[|p| - 1];
      Update(doc, c, previous, map[], captured) ==
        Some(Written(WithList(doc, p[..|p| - 1], Grown(list, claim)[Position(list, claim) := e]), map[]))
  {
    var front, claim := p[..|p| - 1], p[|p| - 1];
    assert p == front + [claim] && p[0] == front[0];
    WayDown(front);
    ElementOps(doc, front, list, claim, e);
    assert c.paths[1..] == [] && Texts([p])[0] == Print(p);
    assert !captured ==> Capture(doc, c.obj, c.paths, map[]) == map[];
    var set' := Set(doc, p, e);
    assert set' == SetAt(doc, p, e) && SetAll(doc, c.obj, c.paths) == SetAll(set'.tree, c.obj, []) == Some(set'.tree);
    WithdrawClaimed(doc, previous, (set t | t in Texts(c.paths)), map[]);
  }

  lemma {:induction false} OneApply(w: World, id: Id, c: Contribution, p: Path, list: seq<Json>, e: Json)
    requires |p| > 1 && Way(p[..|p| - 1]) && p[|p| - 1].IsKeyMatch() && Printable(p)
    requires c.paths == [p] && Get(c.obj, p) == Some(e) && Get(w.doc, p[..|p| - 1]) == Some(Arr(list))
    requires if id in w.records then w.records[id] == Record([Print(p)], map[], true) else FindByKey(list, p[|p| - 1].key, p[|p| - 1].val) < 0
    ensures var claim := p[|p| - 1];
      Step(w, Apply(id, c)) == (Recorded(w, id, p, Grown(list, claim)[Position(list, claim) := e]), true)
  {
    StoredPathsReadBack([p]);
    assert Texts([p]) == [Print(p)];
    OneUpdate(w.doc, c, p, list, e, Previous(RecordOf(w, id)), RecordOf(w, id).captured);
  }

  /** What an apply leaves of a list that holds the element already, or does not find it, once it is read again. */
  lemma {:induction false} NextList(list: seq<Json>, was: seq<Json>, claim: Segment, e: Json)
    requires claim.IsKeyMatch() && Matches(e, claim.key, claim.val) && Live(Arr(list)) == Arr(list) && Live(Arr(was)) == Arr(was)
    requires FindByKey(list, claim.key, claim.val) < 0
    requires FindByKey(was, claim.key, claim.val) < 0 || (was == list + [Live(e)] && Matches(Live(e), claim.key, claim.val))
    ensures Live(Arr(Grown(was, claim)[Position(was, claim) := e])) ==
      Arr(if FindByKey(was, claim.key, claim.val) < 0 then was + [Live(e)] else was)
  {
    if FindByKey(was, claim.key, claim.val) < 0 {
      Appended(was, claim, e);
      LiveAppended(was, e);
    } else {
      Appended(list, claim, Live(e));
      LiveAppended(list, e);
      assert was[|list| := e] == list + [e];
    }
  }

  lemma {:induction false} NextApply(w: World, world: World, id: Id, c: Contribution, p: Path, list: seq<Json>, was: seq<Json>, e: Json)
    requires Contributes(w, c, p, list, e) && Live(Arr(was)) == Arr(was)
    requires id !in w.records && (world == Recorded(w, id, p, was) || (world == w && was == list))
    requires FindByKey(was, p[|p| - 1].key, p[|p| - 1].val) < 0 || (was == list + [Live(e)] && FoundLive(p, e) && world != w)
    ensures Applied(world, id, c) ==
      Recorded(w, id, p, if FindByKey(was, p[|p| - 1].key, p[|p| - 1].val) < 0 then was + [Live(e)] else was)
  {
    var front, claim := p[..|p| - 1], p[|p| - 1];
    var next := Grown(was, claim)[Position(was, claim) := e];
    WithListAgain(w.doc, front, was, next);
    OneApply(world, id, c, p, was, e);
    LiveList(w.doc, front, list);
    NextList(list, was, claim, e);
    LiveList(w.doc, front, next);
  }

  /** The list after a number of applies, once it is read again: one element if it is found, else one more each time. */
  function ListAfter(list: seq<Json>, live: Json, found: bool, times: nat): seq<Json>
  {
    list + Copies(live, if found && times > 0 then 1 else times)
  }

  lemma {:induction false} CopiesMore(list: seq<Json>, live: Json, found: bool, times: nat)
    ensures ListAfter(list, live, found, 0) == list
    ensures found && times > 0 ==> ListAfter(list, live, found, times) == list + [live]
    ensures ListAfter(list, live, found, times + 1) ==
      if found && times > 0 then ListAfter(list, live, found, times) else ListAfter(list, live, found, times) + [live]
  {
    assert list + [] == list;
    assert Copies(live, 1) == Copies(live, 0) + [live] == [live];
    assert list + (Copies(live, times) + [live]) == list + Copies(live, times) + [live];
  }

  lemma {:induction false} ListAfterMore(list: seq<Json>, claim: Segment, live: Json, times: nat)
    requires claim.IsKeyMatch() && Live(Arr(list)) == Arr(list) && Live(live) == live && FindByKey(list, claim.key, claim.val) < 0
    ensures var found := Matches(live, claim.key, claim.val);
      var l := ListAfter(list, live, found, times);
      && Live(Arr(l)) == Arr(l)
      && FindByKey(l, claim.key, claim.val) == if found && times > 0 then |list| else -1
    decreases times
  {
    var found := Matches(live, claim.key, claim.val);
    if times == 0 {
      CopiesMore(list, live, found, 0);
    } else {
      var before := ListAfter(list, live, found, times - 1);
      ListAfterMore(list, claim, live, times - 1);
      CopiesMore(list, live, found, times - 1);
      if !found || times == 1 {
        Appended(before, claim, live);
        LiveAppended(before, live);
      }
    }
  }

  lemma {:induction false} AppliedLive(w: World, id: Id, c: Contribution, p: Path, list: seq<Json>, e: Json, times: nat)
    requires Contributes(w, c, p, list, e) && id !in w.records && times > 0
    ensures AppliedOften(w, id, c, times) == Recorded(w, id, p, ListAfter(list, Live(e), FoundLive(p, e), times))
    decreases times
  {
    var was, world := ListAfter(list, Live(e), FoundLive(p, e), times - 1), AppliedOften(w, id, c, times - 1);
    LiveList(w.doc, p[..|p| - 1], list);
    LiveTwice(e);
    ListAfterMore(list, p[|p| - 1], Live(e), times - 1);
    CopiesMore(list, Live(e), FoundLive(p, e), times - 1);
    if times > 1 {
      AppliedLive(w, id, c, p, list, e, times - 1);
      assert id in Recorded(w, id, p, was).records;
    }
    NextApply(w, world, id, c, p, list, was, e);
  }

  /** Releasing the one claim on record deletes the element it finds. */
  lemma {:induction false} ReleaseOne(w: World, id: Id, p: Path, list: seq<Json>)
    requires |p| > 1 && Way(p[..|p| - 1]) && p[|p| - 1].IsKeyMatch() && Printable(p) && id !in w.records
    requires Get(w.doc, p[..|p| - 1]).Some? && Get(w.doc, p[..|p| - 1]).value.Arr?
    ensures var i := FindByKey(list, p[|p| - 1].key, p[|p| - 1].val);
      && Get(Recorded(w, id, p, list).doc, p) == (if i < 0 then None else Some(list[i]))
      && Step(Recorded(w, id, p, list), Release(id)) ==
           (World(WithList(w.doc, p[..|p| - 1], if i < 0 then list else list[..i] + list[i + 1..]), w.records), true)
  {
    StoredPathsReadBack([p]);
    assert Texts([p]) == [Print(p)] && [p][1..] == [];
    assert w.records[id := Record([Print(p)], map[], true)] - {id} == w.records;
    DeleteOne(w.doc, p, list);
    var doc := Recorded(w, id, p, list).doc;
    assert RevertAll(doc, [p], map[]) == RevertAll(RestoreOrDelete(doc, p, map[]), [], map[]) == Delete(doc, p).tree;
  }

  lemma {:induction false} DeleteOne(c: Json, p: Path, list: seq<Json>)
    requires |p| > 1 && Way(p[..|p| - 1]) && p[|p| - 1].IsKeyMatch()
    requires Get(c, p[..|p| - 1]).Some? && Get(c, p[..|p| - 1]).value.Arr?
    ensures var doc, i := WithList(c, p[..|p| - 1], list), FindByKey(list, p[|p| - 1].key, p[|p| - 1].val);
      && Get(doc, p) == (if i < 0 then None else Some(list[i]))
      && Delete(doc, p).tree == WithList(c, p[..|p| - 1], if i < 0 then list else list[..i] + list[i + 1..])
  {
    var front, claim, doc := p[..|p| - 1], p[|p| - 1], WithList(c, p[..|p| - 1], list);
    var i := FindByKey(list, claim.key, claim.val);
    var rest := if i < 0 then list else list[..i] + list[i + 1..];
    assert p == front + [claim];
    WithListAgain(c, front, list, rest);
    ElementOps(doc, front, list, claim, Null);
    if i >= 0 {
      WithListAgain(c, front, rest, list);
      assert DeleteAt(doc, p) == Edit(WithList(c, front, rest), true);
      assert Get(DeleteAt(doc, p).tree, p[..|p| - 1]) == Some(Arr(rest));
    }
  }

  /** Any claim on an element: what applies leave of it, and what a release takes away. */
  lemma {:induction false} AppliedAndReleased(w: World, id: Id, c: Contribution, p: Path, list: seq<Json>, e: Json, times: nat)
    requires Contributes(w, c, p, list, e) && id !in w.records && times > 0
    ensures var after, found := AppliedOften(w, id, c, times), FoundLive(p, e);
      && after.doc == WithList(w.doc, p[..|p| - 1], list + Copies(Live(e), if found then 1 else times))
      && Get(after.doc, p) == (if found then Some(Live(e)) else None)
      && Step(after, Release(id)) == (if found then w else after.(records := w.records), true)
  {
    var more := ListAfter(list, Live(e), FoundLive(p, e), times);
    LiveList(w.doc, p[..|p| - 1], list);
    LiveTwice(e);
    ListAfterMore(list, p[|p| - 1], Live(e), times);
    AppliedLive(w, id, c, p, list, e, times);
    ReleaseOne(w, id, p, more);
    if FoundLive(p, e) {
      CopiesMore(list, Live(e), true, times);
      assert more[..|list|] + more[|list| + 1..] == list && more[|list|] == Live(e);
      WithListAgain(w.doc, p[..|p| - 1], list, list);
    }
  }

  /**
   * A contribution whose one claim is a list element by an integer key, in a list that does not have it, applied
   * any number of times to the live object: if and only if the key is below a million there is one element, which
   * the claim reads and a release takes away again. From there on there is one more for each apply; the claim
   * reads none of them, and a release, reporting success, leaves them all.
   */
  lemma {:induction false} NumericKeysAppend(w: World, id: Id, c: Contribution, p: Path, list: seq<Json>, e: Json, n: int, times: nat)
    requires Contributes(w, c, p, list, e) && id !in w.records && times > 0
    requires -MAX_EXACT <= n <= MAX_EXACT && p[|p| - 1].val == FloatText(n)
    requires p[|p| - 1].key in e.fields && e.fields[p[|p| - 1].key] == Num(FloatText(n))
    ensures var after, found := AppliedOften(w, id, c, times), -MILLION < n < MILLION;
      && after.doc == WithList(w.doc, p[..|p| - 1], list + Copies(Live(e), if found then 1 else times))
      && Live(e).fields[p[|p| - 1].key] == Num(Itoa(n))
      && Get(after.doc, p) == (if found then Some(Live(e)) else None)
      && Step(after, Release(id)) == (if found then w else after.(records := w.records), true)
  {
    LiveElement(e, p[|p| - 1].key, n);
    AppliedAndReleased(w, id, c, p, list, e, times);
  }
}
