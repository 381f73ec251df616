// Saving the value on top of the stack and pushing it again later, at any time,
// even when its own slot has long been folded into a vector or map.
module FlexReuse {
  import opened Options
  import opened FlexTypes
  import opened FlexReader
  import opened FlexSpec
  import opened FlexFields
  import opened FlexVectors
  import opened FlexRuns
  import opened FlexRoundTrip
  import opened FlexDecode
  import Sharing = FlexSharing

  // A call of the builder, `LastValue`, or `ReuseValue` of what save `k` returned.
  datatype Call = Plain(op: Op) | Save | Reuse(k: nat)

  // The builder, and the values its caller holds.
  datatype Session = Session(st: State, saved: seq<Value>)

  // The trees these stand for.
  datatype Account = Account(ts: seq<Tree>, saved: seq<Tree>)

  ghost predicate CanDo(s: Session, c: Call) {
    && Roomy(s.st) && PoolsTerminated(s.st)
    && match c
       case Plain(op) => Legal(s.st, op)
       case Save => s.st.stack != []
       case Reuse(k) => k < |s.saved|
  }

  function Do(s: Session, c: Call): Session
    requires CanDo(s, c)
  {
    match c
    case Plain(op) => s.(st := Step(s.st, op))
    case Save => s.(saved := s.saved + [s.st.stack[|s.st.stack| - 1]])
    case Reuse(k) => s.(st := Push(s.st, s.saved[k]))
  }

  ghost predicate Sayable(a: Account, c: Call, shareStrings: bool) {
    match c
    case Plain(op) => Expressible(a.ts, op, shareStrings)
    case Save => a.ts != []
    case Reuse(k) => k < |a.saved|
  }

  function Say(a: Account, c: Call): Account {
    match c
    case Plain(op) => a.(ts := TreeStep(a.ts, op))
    case Save => if a.ts == [] then a else a.(saved := a.saved + [a.ts[|a.ts| - 1]])
    case Reuse(k) => if k < |a.saved| then a.(ts := a.ts + [a.saved[k]]) else a
  }

  // The builder stands for its trees, and so does every value held.
  ghost predicate Stands(s: Session, a: Account) {
    Inv(s.st, a.ts) && AllMean(s.st.buf, s.saved, a.saved)
  }

  ghost predicate Enough(s: Session, c: Call)
    requires Roomy(s.st) && PoolsTerminated(s.st)
  {
    match c
    case Plain(op) => Memory(s.st, op)
    case Save => true
    case Reuse(k) => k < |s.saved| ==> Roomy(Push(s.st, s.saved[k]))
  }

  lemma SaveStands(s: Session, a: Account)
    requires Stands(s, a) && a.ts != []
    ensures s.st.stack != [] && (CanDo(s, Save) ==> Stands(Do(s, Save), Say(a, Save)))
  {
    hide Means, KeyPoolOk, StringPoolOk, Roomy, PoolsTerminated;
  }

  lemma ReuseStands(s: Session, a: Account, k: nat)
    requires Stands(s, a) && k < |a.saved| && CanDo(s, Reuse(k)) && Roomy(Push(s.st, s.saved[k]))
    ensures Stands(Do(s, Reuse(k)), Say(a, Reuse(k)))
  {
    hide Means, KeyPoolOk, StringPoolOk, Roomy, PoolsTerminated;
  }

  lemma PlainStands(s: Session, a: Account, op: Op)
    requires Stands(s, a) && PoolsTerminated(s.st) && Roomy(s.st)
    requires Expressible(a.ts, op, s.st.shareStrings) && Memory(s.st, op)
    ensures CanDo(s, Plain(op)) && Stands(Do(s, Plain(op)), Say(a, Plain(op)))
    ensures Do(s, Plain(op)).st.shareStrings == s.st.shareStrings
  {
    OneStep(s.st, a.ts, op);
    Sharing.StepGrows(s.st, op);
    hide Inv, Means, Step, TreeStep, Legal, Expressible, Memory, Roomy, PoolsTerminated;
    AllMeanStable(s.st.buf, Step(s.st, op).buf, s.saved, a.saved);
  }

  lemma CallStands(s: Session, a: Account, c: Call)
    requires Stands(s, a) && PoolsTerminated(s.st) && Roomy(s.st)
    requires Sayable(a, c, s.st.shareStrings) && Enough(s, c)
    ensures CanDo(s, c) && Stands(Do(s, c), Say(a, c)) && Do(s, c).st.shareStrings == s.st.shareStrings
  {
    match c
    case Plain(op) => PlainStands(s, a, op);
    case Save =>
      hide Inv, AllMean, Roomy, PoolsTerminated;
      SaveStands(s, a);
    case Reuse(k) =>
      hide Inv, Roomy, PoolsTerminated;
      ReuseStands(s, a, k);
  }

  // -------------------------------------------------------------------- runs

  ghost predicate CanDoAll(s: Session, cs: seq<Call>)
    decreases |cs|
  {
    cs == [] || (CanDo(s, cs[0]) && CanDoAll(Do(s, cs[0]), cs[1..]))
  }

  function DoAll(s: Session, cs: seq<Call>): Session
    requires CanDoAll(s, cs)
    decreases |cs|
  {
    if cs == [] then s else DoAll(Do(s, cs[0]), cs[1..])
  }

  function SayAll(a: Account, cs: seq<Call>): Account
    decreases |cs|
  {
    if cs == [] then a else SayAll(Say(a, cs[0]), cs[1..])
  }

  ghost predicate SayableAll(a: Account, cs: seq<Call>, shareStrings: bool)
    decreases |cs|
  {
    cs == [] || (Sayable(a, cs[0], shareStrings) && SayableAll(Say(a, cs[0]), cs[1..], shareStrings))
  }

  ghost predicate EnoughForAll(s: Session, cs: seq<Call>)
    decreases |cs|
  {
    Roomy(s.st) && PoolsTerminated(s.st)
    && (cs == [] || (Enough(s, cs[0]) && (CanDo(s, cs[0]) ==> EnoughForAll(Do(s, cs[0]), cs[1..]))))
  }

  lemma {:induction false} AllStands(s: Session, a: Account, cs: seq<Call>)
    requires Stands(s, a) && SayableAll(a, cs, s.st.shareStrings) && EnoughForAll(s, cs)
    ensures CanDoAll(s, cs) && Stands(DoAll(s, cs), SayAll(a, cs)) && Roomy(DoAll(s, cs).st)
    decreases |cs|
  {
    hide Stands, CanDo, Do, Say, Sayable, Enough, Roomy, PoolsTerminated;
    if cs != [] {
      CallStands(s, a, cs[0]);
      AllStands(Do(s, cs[0]), Say(a, cs[0]), cs[1..]);
    }
  }

  function Fresh(shareKeys: bool, shareStrings: bool): Session {
    Session(Initial(shareKeys, shareStrings), [])
  }

  // Every sequence of calls, with values saved and reused at will: the finished
  // buffer decodes to the one tree the calls describe.
  lemma ReuseRoundTrip(shareKeys: bool, shareStrings: bool, cs: seq<Call>, v: Tree, depth: nat)
    requires SayableAll(Account([], []), cs, shareStrings) && EnoughForAll(Fresh(shareKeys, shareStrings), cs)
    requires SayAll(Account([], []), cs).ts == [v] && Depth(v) <= depth
    ensures CanDoAll(Fresh(shareKeys, shareStrings), cs)
    ensures var st := DoAll(Fresh(shareKeys, shareStrings), cs).st;
      Roomy(st) && |st.stack| == 1 && DecodeRoot(Finish(st), depth) == Some(v)
  {
    var s := Fresh(shareKeys, shareStrings);
    InitialInv(shareKeys, shareStrings);
    hide Means, KeyPoolOk, StringPoolOk, EnoughForAll, SayableAll, CanDoAll, DoAll, SayAll, Finish;
    AllStands(s, Account([], []), cs);
    var st := DoAll(s, cs).st;
    FinishShows(st, v);
    DecodeShows(Finish(st), GetRoot(Finish(st)).value, v, depth);
  }
}
