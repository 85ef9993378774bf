/** The growth of a log stream's buffer (nutty/log/LogBuffer.cpp, nutty/log/LogBuffer.h and the formatting
    operators of nutty/log/LogStream.cpp) over whole runs. */
module LogBufferMachine {
  import opened Arithmetic
  import opened Numerals

  const BUFFER_SIZE: nat := 512
  const MAX_NUMERIC_SIZE: nat := 32

  datatype State = State(
    text: string,        // the first size_ characters of buf_
    capacity: nat,
    copied: nat,         // characters that reserve() has copied so far
    overrun: bool        // something was written past the end of buf_
  )

  datatype Event = Append(bytes: string) | Number(value: int) | Pointer(address: nat)

  const Init := State("", BUFFER_SIZE, 0, false)

  function Reserve(s: State, capacity: nat): State {
    s.(capacity := Max(s.capacity + s.capacity / 2, capacity), copied := s.copied + |s.text|)
  }

  function Ensure(s: State, need: nat): State {
    if need > s.capacity then Reserve(s, need) else s
  }

  /** `needSize` is a `uint32_t`. */
  function NeedSize(size: nat): nat {
    (size + MAX_NUMERIC_SIZE) % 0x1_0000_0000
  }

  /** Writes `written` and a NUL where the text ends. */
  function Print(s: State, written: string): State {
    s.(text := s.text + written, overrun := s.overrun || |s.text| + |written| + 1 > s.capacity)
  }

  /** What an event adds to the text. */
  function Printed(e: Event): string {
    match e
    case Append(bytes) => bytes
    case Number(value) => Text(value)
    case Pointer(address) => "0x" + Digits(address, 16)
  }

  function Step(s: State, e: Event): State {
    match e
    case Append(bytes) =>
      var t := Ensure(s, |s.text| + |bytes|);
      t.(text := s.text + bytes, overrun := s.overrun || |s.text| + |bytes| > t.capacity)
    case _ => Print(Ensure(s, NeedSize(|s.text|)), Printed(e))
  }

  /** The values are those of the operators' types. */
  predicate Typed(e: Event) {
    match e
    case Append(_) => true
    case Number(value) => MIN_VALUE <= value <= MAX_VALUE
    case Pointer(address) => address <= MAX_VALUE
  }

  function Exec(es: seq<Event>): State {
    if es == [] then Init else Step(Exec(es[..|es| - 1]), es[|es| - 1])
  }

  function Concat(es: seq<Event>): string {
    if es == [] then "" else Concat(es[..|es| - 1]) + Printed(es[|es| - 1])
  }

  /** What the buffer must hold after the step, as far as the source computes it. */
  function Needed(s: State, e: Event): nat {
    match e
    case Append(bytes) => |s.text| + |bytes|
    case _ => (|s.text| + 32) % 0x1_0000_0000
  }

  /** The text is copied to a larger array if and only if this one is too small, and then to one half as large again,
      or as large as needed if that is more. */
  lemma GrowsExactly(s: State, e: Event)
    requires s.capacity > 0
    ensures Step(s, e).capacity != s.capacity <==> Needed(s, e) > s.capacity
    ensures Needed(s, e) > s.capacity ==>
              && Step(s, e).capacity >= Needed(s, e) && 2 * Step(s, e).capacity >= 3 * s.capacity - 1
              && (Step(s, e).capacity == Needed(s, e) || 2 * Step(s, e).capacity <= 3 * s.capacity)
    ensures Step(s, e).copied == s.copied + if Needed(s, e) > s.capacity then |s.text| else 0
  {
  }

  /** A number is written within the buffer if and only if the sum of the size and 32 fits the `uint32_t`, or
      the buffer happened to have the room. */
  lemma NumberOverrunsExactly(s: State, e: Event)
    requires Typed(e) && !e.Append? && !s.overrun && |s.text| <= s.capacity
    ensures Step(s, e).overrun <==>
            |s.text| + 32 >= 0x1_0000_0000 && |s.text| + |Printed(e)| + 1 > s.capacity
  {
    PrintedFits(e);
  }

  lemma PrintedFits(e: Event)
    requires Typed(e) && !e.Append?
    ensures 1 <= |Printed(e)| <= 20
  {
    match e
    case Number(value) => TextFits(value);
    case Pointer(address) => TextFits(address);
  }

  lemma {:induction false} TextIsWhatWasPrinted(es: seq<Event>)
    ensures Exec(es).text == Concat(es)
    ensures !Exec(es).overrun ==> |Exec(es).text| <= Exec(es).capacity
    decreases |es|
  {
    if es != [] {
      hide Text, Digits;
      TextIsWhatWasPrinted(es[..|es| - 1]);
    }
  }

  /** Some number of the run came when the text and 32 more no longer fit the `uint32_t`, and the buffer had not
      the room for it. */
  predicate NumberWithoutRoom(es: seq<Event>) {
    es != [] &&
    var front := es[..|es| - 1];
    NumberWithoutRoom(front) ||
    (!es[|es| - 1].Append? && |Concat(front)| + 32 >= 0x1_0000_0000 &&
     |Concat(es)| + 1 > Exec(front).capacity)
  }

  /** Over whole runs: something is written past the end if and only if such a number is printed. */
  lemma {:induction false} RunOverrunsExactly(es: seq<Event>)
    requires forall e | e in es :: Typed(e)
    ensures Exec(es).overrun <==> NumberWithoutRoom(es)
    decreases |es|
  {
    if es != [] {
      var front, e := es[..|es| - 1], es[|es| - 1];
      assert e in es && forall f | f in front :: f in es;
      hide Text, Digits;
      RunOverrunsExactly(front);
      TextIsWhatWasPrinted(front);
      if !e.Append? && !Exec(front).overrun {
        NumberOverrunsExactly(Exec(front), e);
      }
    }
  }

  /** Such a run: two appends of the greatest length an `int` holds, then a number. */
  lemma TwoLongAppendsOverrun(a: string, b: string)
    requires |a| == |b| == 0x7FFF_FFFF
    ensures Exec([Append(a), Append(b), Number(0)]).overrun
  {
    var e1, e2, e3 := [Append(a)], [Append(a), Append(b)], [Append(a), Append(b), Number(0)];
    assert e3[..2] == e2 && e2[..1] == e1 && e1[..0] == [];
    var s1 := State("" + a, 0x7FFF_FFFF, 0, false);
    assert Exec(e1) == Step(Init, Append(a)) == s1;
    var s2 := State("" + a + b, 0xFFFF_FFFE, 0x7FFF_FFFF, false);
    assert Exec(e2) == Step(s1, Append(b)) == s2;
    NumberOverrunsExactly(s2, Number(0));
  }

  /** Capacity and copying are in proportion; `slack` is how much a reservation may exceed the text. */
  predicate Proportionate(s: State, slack: nat) {
    && |s.text| <= s.capacity && BUFFER_SIZE <= s.capacity && !s.overrun
    && s.copied <= 3 * (s.capacity - BUFFER_SIZE)
    && (s.capacity == BUFFER_SIZE || 2 * s.capacity <= 3 * (|s.text| + slack))
  }

  lemma AppendKeepsProportion(s: State, bytes: string, slack: nat)
    requires Proportionate(s, slack)
    ensures Proportionate(Step(s, Append(bytes)), slack) && Step(s, Append(bytes)).text == s.text + bytes
  {
  }

  lemma PrintKeepsProportion(s: State, written: string, slack: nat)
    requires Proportionate(s, slack) && slack >= 31 && 1 <= |written| <= 20
    requires |s.text| + MAX_NUMERIC_SIZE < 0x1_0000_0000
    ensures Proportionate(Print(Ensure(s, NeedSize(|s.text|)), written), slack)
  {
  }

  /** A number that is written within the buffer. */
  lemma PrintStep(s: State, e: Event)
    requires Typed(e) && !e.Append? && !Step(s, e).overrun && |s.text| <= s.capacity
    ensures Step(s, e) == Ensure(s, NeedSize(|s.text|)).(text := s.text + Printed(e))
    ensures Ensure(s, NeedSize(|s.text|)).text == s.text
    ensures |s.text| + |Printed(e)| + 1 <= Ensure(s, NeedSize(|s.text|)).capacity
  {
    PrintedFits(e);
  }

  lemma {:induction false} ConcatGrows(es: seq<Event>)
    requires es != []
    ensures |Concat(es[..|es| - 1])| <= |Concat(es)|
  {
  }

  /** Text shorter than four gigabytes is what was printed, in order, and was never written past the end; the
      copying costs no more than three characters for each one of capacity gained; and the capacity exceeds one
      and a half times the size by little. */
  lemma {:induction false} GrowthIsAmortised(es: seq<Event>)
    requires (forall e | e in es :: Typed(e)) && |Concat(es)| + 32 < 0x1_0000_0000
    ensures var s := Exec(es);
            && s.text == Concat(es) && !s.overrun && |s.text| <= s.capacity
            && s.copied <= 3 * (s.capacity - 512)
            && (s.capacity == 512 || 2 * s.capacity <= 3 * (|s.text| + 31))
    ensures Proportionate(Exec(es), 31)
    decreases |es|
  {
    if es != [] {
      var front, e := es[..|es| - 1], es[|es| - 1];
      assert e in es && forall f | f in front :: f in es;
      ConcatGrows(es);
      hide Text, Digits;
      GrowthIsAmortised(front);
      var s := Exec(front);
      if e.Append? {
        AppendKeepsProportion(s, e.bytes, 31);
      } else {
        PrintedFits(e);
        hide Printed;
        PrintKeepsProportion(s, Printed(e), 31);
      }
    }
  }

  /** With appends only, of whatever size: capacity at most one and a half times the size, or the first 512. */
  lemma {:induction false} AppendOnlyGrowth(es: seq<Event>)
    requires forall e | e in es :: e.Append?
    ensures var s := Exec(es);
            && s.text == Concat(es) && !s.overrun && |s.text| <= s.capacity
            && s.capacity <= Max(512, 3 * |s.text| / 2)
            && s.copied <= 3 * (s.capacity - 512)
    ensures Proportionate(Exec(es), 0)
    decreases |es|
  {
    if es != [] {
      var front, e := es[..|es| - 1], es[|es| - 1];
      assert e in es && forall f | f in front :: f in es;
      hide Text, Digits;
      AppendOnlyGrowth(front);
      AppendKeepsProportion(Exec(front), e.bytes, 0);
    }
  }
}
