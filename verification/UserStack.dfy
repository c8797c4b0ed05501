/**
The initial user stack (boot/kernel_elf_parser/src/user_stack.rs:58-159): the image is
grown downwards from `sp` by prepending.  What a program sees is defined apart from the
builder, by the reader of section 3.4.1 of the System V AMD64 psABI.
*/
module UserStack {
  import opened Prelude
  import opened Bytes

  /** An auxiliary vector entry: an `AT_` code and its value. */
  datatype AuxEntry = AuxEntry(kind: Word, value: Word)

  const AT_NULL: Word := 0
  const AT_RANDOM: Word := 25
  const AT_EXECFN: Word := 31

  // ---- memory -------------------------------------------------------------------------------

  /** `bytes` placed at address `base`. */
  datatype Memory = Memory(base: int, bytes: seq<Byte>) {
    function End(): int { base + |bytes| }

    /** `b` stands at address `p`. */
    predicate Holds(p: int, b: seq<Byte>) {
      base <= p && p + |b| <= End() && forall i :: 0 <= i < |b| ==> bytes[p - base + i] == b[i]
    }
  }

  /** `m` with `src` in front: addresses of what was there do not move. */
  function Below(m: Memory, src: seq<Byte>): Memory {
    Memory(m.base - |src|, src + m.bytes)
  }

  lemma {:induction false} BelowHolds(m: Memory, src: seq<Byte>)
    ensures Keeps(m, Below(m, src)) && Below(m, src).Holds(m.base - |src|, src)
  {
  }

  /** Whatever stood in `m` stands in `n`. */
  ghost predicate Keeps(m: Memory, n: Memory) {
    n.base <= m.base && n.End() == m.End() && forall p, b :: m.Holds(p, b) ==> n.Holds(p, b)
  }

  lemma {:induction false} HoldsParts(m: Memory, p: int, a: seq<Byte>, b: seq<Byte>)
    ensures m.Holds(p, a + b) <==> m.Holds(p, a) && m.Holds(p + |a|, b)
  {
    var o := p - m.base;
    if m.Holds(p, a + b) {
      assert forall i :: 0 <= i < |a| ==> (a + b)[i] == a[i];
      assert forall i :: 0 <= i < |b| ==> (a + b)[|a| + i] == b[i];
    }
  }

  // ---- what a program reads -----------------------------------------------------------------

  function Load(m: Memory, p: int): Option<nat> {
    if m.base <= p && p + 8 <= m.End() then Some(Number(m.bytes[p - m.base..p - m.base + 8])) else None
  }

  /** The bytes from `p` up to a NUL. */
  function LoadString(m: Memory, p: int): Option<seq<Byte>>
    decreases m.End() - p
  {
    if !(m.base <= p < m.End()) then None
    else if m.bytes[p - m.base] == 0 then Some([])
    else match LoadString(m, p + 1)
      case None => None
      case Some(s) => Some([m.bytes[p - m.base]] + s)
  }

  /** Pointers from `p` up to a null one. */
  function LoadPointers(m: Memory, p: int): Option<seq<nat>>
    decreases m.End() - p
  {
    var w := Load(m, p);
    if w == None then None
    else if w.value == 0 then Some([])
    else match LoadPointers(m, p + 8)
      case None => None
      case Some(s) => Some([w.value] + s)
  }

  /** Auxiliary entries from `p` up to `AT_NULL`. */
  function LoadAux(m: Memory, p: int): Option<seq<(nat, nat)>>
    decreases m.End() - p
  {
    var kind, value := Load(m, p), Load(m, p + 8);
    if kind == None || value == None then None
    else if kind.value == AT_NULL then Some([])
    else match LoadAux(m, p + 16)
      case None => None
      case Some(s) => Some([(kind.value, value.value)] + s)
  }

  function LoadStrings(m: Memory, ps: seq<nat>): Option<seq<seq<Byte>>> {
    if ps == [] then Some([])
    else match LoadString(m, ps[0])
      case None => None
      case Some(s) =>
        match LoadStrings(m, ps[1..])
        case None => None
        case Some(rest) => Some([s] + rest)
  }

  datatype Frame = Frame(argv: seq<seq<Byte>>, envp: seq<seq<Byte>>, auxv: seq<(nat, nat)>)

  /** The process entry state: `argc` at the stack pointer, `argc` argument pointers and
      a null, environment pointers up to a null, auxiliary entries up to `AT_NULL`. */
  function ReadFrame(m: Memory): Option<Frame> {
    match LoadPointers(m, m.base + 8)
    case None => None
    case Some(argv) => if Load(m, m.base) == Some(|argv|) then ReadAfterArgs(m, argv) else None
  }

  function ReadAfterArgs(m: Memory, argv: seq<nat>): Option<Frame> {
    match LoadPointers(m, m.base + 16 + 8 * |argv|)
    case None => None
    case Some(envp) => ReadRest(m, argv, envp)
  }

  function ReadRest(m: Memory, argv: seq<nat>, envp: seq<nat>): Option<Frame> {
    match LoadAux(m, m.base + 24 + 8 * |argv| + 8 * |envp|)
    case None => None
    case Some(auxv) =>
      var args, vars := LoadStrings(m, argv), LoadStrings(m, envp);
      if args == None || vars == None then None else Some(Frame(args.value, vars.value, auxv))
  }

  // ---- reading back what was laid out -------------------------------------------------------

  /** What remains of a string for a reader that stops at NUL. */
  function UpToNul(s: seq<Byte>): (r: seq<Byte>)
    ensures 0 !in s <==> r == s
    ensures 0 !in r
  {
    if s == [] || s[0] == 0 then []
    else
      assert s == [s[0]] + s[1..];
      [s[0]] + UpToNul(s[1..])
  }

  function Strings(ss: seq<seq<Byte>>): seq<seq<Byte>> {
    if ss == [] then [] else [UpToNul(ss[0])] + Strings(ss[1..])
  }

  /** Strings are read whole exactly when none of them holds a NUL. */
  lemma {:induction false} StringsWhole(ss: seq<seq<Byte>>)
    ensures Strings(ss) == ss <==> forall i :: 0 <= i < |ss| ==> 0 !in ss[i]
  {
    if ss != [] {
      StringsWhole(ss[1..]);
      assert ss == [ss[0]] + ss[1..];
      assert Strings(ss)[0] == UpToNul(ss[0]) && Strings(ss)[1..] == Strings(ss[1..]);
      assert forall i :: 0 <= i < |ss[1..]| ==> ss[1..][i] == ss[i + 1];
      if Strings(ss) == ss {
        forall i | 0 <= i < |ss| ensures 0 !in ss[i] {
          assert i > 0 ==> ss[i] == ss[1..][i - 1];
        }
      }
    }
  }

  function Words(ws: seq<Word>): (r: seq<Byte>)
    ensures |r| == 8 * |ws|
  {
    if ws == [] then [] else Le(8, ws[0]) + Words(ws[1..])
  }

  function EntryBytes(e: AuxEntry): (r: seq<Byte>)
    ensures |r| == 16
  {
    Le(8, e.kind) + Le(8, e.value)
  }

  function AuxBytes(es: seq<AuxEntry>): (r: seq<Byte>)
    ensures |r| == 16 * |es|
  {
    if es == [] then [] else EntryBytes(es[0]) + AuxBytes(es[1..])
  }

  const NULL_ENTRY: AuxEntry := AuxEntry(AT_NULL, 0)

  function AuxPairs(es: seq<AuxEntry>): seq<(nat, nat)> {
    if es == [] then [] else [(es[0].kind, es[0].value)] + AuxPairs(es[1..])
  }

  function Zeros(n: nat): seq<Byte> {
    seq(n, _ => 0)
  }

  lemma {:induction false} ZeroWord()
    ensures Le(8, 0) == Zeros(8)
  {
    assert Le(4, 0) == Zeros(4);
  }

  lemma {:induction false} LoadWord(m: Memory, p: int, x: Word)
    requires m.Holds(p, Le(8, x))
    ensures Load(m, p) == Some(x)
  {
    Pow2Values();
    ReadBack(8, x);
    assert m.bytes[p - m.base..p - m.base + 8] == Le(8, x);
  }

  lemma {:induction false} LoadStringBack(m: Memory, p: int, s: seq<Byte>)
    requires m.Holds(p, s + [0])
    ensures LoadString(m, p) == Some(UpToNul(s))
    decreases s
  {
    var o := p - m.base;
    assert m.bytes[o + 0] == (s + [0])[0];
    if s != [] && s[0] != 0 {
      assert s + [0] == [s[0]] + (s[1..] + [0]);
      HoldsParts(m, p, [s[0]], s[1..] + [0]);
      LoadStringBack(m, p + 1, s[1..]);
    }
  }

  lemma {:induction false} LoadPointersBack(m: Memory, p: int, ws: seq<Word>)
    requires m.Holds(p, Words(ws)) && m.Holds(p + 8 * |ws|, Zeros(8))
    requires forall i :: 0 <= i < |ws| ==> ws[i] != 0
    ensures LoadPointers(m, p) == Some(ws)
    decreases ws
  {
    if ws == [] {
      ZeroWord();
      LoadWord(m, p, 0);
    } else {
      HoldsParts(m, p, Le(8, ws[0]), Words(ws[1..]));
      LoadWord(m, p, ws[0]);
      LoadPointersBack(m, p + 8, ws[1..]);
      assert ws == [ws[0]] + ws[1..];
    }
  }

  lemma {:induction false} LoadEntry(m: Memory, p: int, e: AuxEntry)
    requires m.Holds(p, EntryBytes(e))
    ensures Load(m, p) == Some(e.kind) && Load(m, p + 8) == Some(e.value)
  {
    HoldsParts(m, p, Le(8, e.kind), Le(8, e.value));
    LoadWord(m, p, e.kind);
    LoadWord(m, p + 8, e.value);
  }

  /** Entries up to and including the first `AT_NULL` one. */
  predicate Terminated(es: seq<AuxEntry>) {
    es != [] && es[|es| - 1].kind == AT_NULL && forall i :: 0 <= i < |es| - 1 ==> es[i].kind != AT_NULL
  }

  lemma {:induction false} LoadAuxBack(m: Memory, p: int, es: seq<AuxEntry>)
    requires Terminated(es) && m.Holds(p, AuxBytes(es))
    ensures LoadAux(m, p) == Some(AuxPairs(es[..|es| - 1]))
    decreases es
  {
    HoldsParts(m, p, EntryBytes(es[0]), AuxBytes(es[1..]));
    LoadEntry(m, p, es[0]);
    if es[0].kind != AT_NULL {
      assert es[1..][..|es| - 2] == es[..|es| - 1][1..];
      LoadAuxBack(m, p + 16, es[1..]);
    }
  }

  /** `ps` are the addresses of the strings `ss`. */
  ghost predicate Point(m: Memory, ps: seq<Word>, ss: seq<seq<Byte>>) {
    |ps| == |ss| && forall i :: 0 <= i < |ps| ==> m.Holds(ps[i], ss[i] + [0])
  }

  lemma {:induction false} LoadStringsBack(m: Memory, ps: seq<Word>, ss: seq<seq<Byte>>)
    requires Point(m, ps, ss)
    ensures LoadStrings(m, ps) == Some(Strings(ss))
    decreases ps
  {
    if ps != [] {
      LoadStringBack(m, ps[0], ss[0]);
      LoadStringsBack(m, ps[1..], ss[1..]);
    }
  }

  lemma {:induction false} PointKept(m: Memory, n: Memory, ps: seq<Word>, ss: seq<seq<Byte>>)
    requires Keeps(m, n) && Point(m, ps, ss)
    ensures Point(n, ps, ss)
  {
    forall i | 0 <= i < |ps| ensures n.Holds(ps[i], ss[i] + [0]) {
    }
  }

  /** The entries of a frame, its environment vector on top of them, and so on down to
      `argc` at the stack pointer. */
  function EnvPart(envp: seq<Word>, es: seq<AuxEntry>, rest: seq<Byte>): seq<Byte> {
    Words(envp) + (Zeros(8) + (AuxBytes(es) + rest))
  }

  function Vectors(argc: Word, argv: seq<Word>, envp: seq<Word>, es: seq<AuxEntry>, rest: seq<Byte>): seq<Byte> {
    Le(8, argc) + (Words(argv) + (Zeros(8) + EnvPart(envp, es, rest)))
  }

  lemma {:induction false} RestOf(m: Memory, argv: seq<nat>, envp: seq<nat>, aux: seq<(nat, nat)>,
                                  args: seq<seq<Byte>>, vars: seq<seq<Byte>>)
    requires LoadAux(m, m.base + 24 + 8 * |argv| + 8 * |envp|) == Some(aux)
    requires LoadStrings(m, argv) == Some(args) && LoadStrings(m, envp) == Some(vars)
    ensures ReadRest(m, argv, envp) == Some(Frame(args, vars, aux))
  {
  }

  /** Part `k` of a frame stands where the ABI puts it. */
  ghost predicate PartAt(m: Memory, argv: seq<Word>, envp: seq<Word>, es: seq<AuxEntry>, k: nat) {
    var envs := m.base + 16 + 8 * |argv|;
    var auxv := m.base + 24 + 8 * |argv| + 8 * |envp|;
    match k
    case 0 => |argv| < TWO64 && m.Holds(m.base, Le(8, |argv|))
    case 1 => m.Holds(m.base + 8, Words(argv))
    case 2 => m.Holds(m.base + 8 + 8 * |argv|, Zeros(8))
    case 3 => m.Holds(envs, Words(envp))
    case 4 => m.Holds(envs + 8 * |envp|, Zeros(8))
    case _ => m.Holds(auxv, AuxBytes(es))
  }

  ghost predicate Layout(m: Memory, argv: seq<Word>, envp: seq<Word>, es: seq<AuxEntry>) {
    forall k: nat :: PartAt(m, argv, envp, es, k)
  }

  lemma {:induction false} CountAt(m: Memory, p: int, argc: Word, rest: seq<Byte>)
    requires m.Holds(p, Le(8, argc) + rest)
    ensures m.Holds(p, Le(8, argc)) && m.Holds(p + 8, rest)
  {
    HoldsParts(m, p, Le(8, argc), rest);
  }

  lemma {:induction false} LaidOut(m: Memory, argv: seq<Word>, envp: seq<Word>, es: seq<AuxEntry>, rest: seq<Byte>)
    requires |argv| < TWO64 && m.Holds(m.base, Vectors(|argv|, argv, envp, es, rest))
    ensures Layout(m, argv, envp, es)
  {
    LaidArgs(m, argv, EnvPart(envp, es, rest));
    LaidEnvs(m, m.base + 16 + 8 * |argv|, envp, es, rest);
    forall k: nat ensures PartAt(m, argv, envp, es, k) {
    }
  }

  lemma {:induction false} LaidArgs(m: Memory, argv: seq<Word>, rest: seq<Byte>)
    requires |argv| < TWO64 && m.Holds(m.base, Le(8, |argv|) + (Words(argv) + (Zeros(8) + rest)))
    ensures m.Holds(m.base, Le(8, |argv|)) && m.Holds(m.base + 8, Words(argv))
    ensures m.Holds(m.base + 8 + 8 * |argv|, Zeros(8)) && m.Holds(m.base + 16 + 8 * |argv|, rest)
  {
    CountAt(m, m.base, |argv|, Words(argv) + (Zeros(8) + rest));
    AfterVector(m, m.base + 8, argv, rest);
  }

  lemma {:induction false} LaidEnvs(m: Memory, q: int, envp: seq<Word>, es: seq<AuxEntry>, rest: seq<Byte>)
    requires m.Holds(q, EnvPart(envp, es, rest))
    ensures m.Holds(q, Words(envp)) && m.Holds(q + 8 * |envp|, Zeros(8)) && m.Holds(q + 8 + 8 * |envp|, AuxBytes(es))
  {
    AfterVector(m, q, envp, AuxBytes(es) + rest);
    HoldsParts(m, q + 8 + 8 * |envp|, AuxBytes(es), rest);
  }

  lemma {:induction false} AfterVector(m: Memory, p: int, ws: seq<Word>, rest: seq<Byte>)
    requires m.Holds(p, Words(ws) + (Zeros(8) + rest))
    ensures m.Holds(p, Words(ws)) && m.Holds(p + 8 * |ws|, Zeros(8)) && m.Holds(p + 8 * |ws| + 8, rest)
  {
    HoldsParts(m, p, Words(ws), Zeros(8) + rest);
    HoldsParts(m, p + 8 * |ws|, Zeros(8), rest);
  }

  lemma {:induction false} ArgsRead(m: Memory, argv: seq<Word>, envp: seq<Word>, es: seq<AuxEntry>)
    requires Layout(m, argv, envp, es) && 0 !in argv
    ensures Load(m, m.base) == Some(|argv|) && LoadPointers(m, m.base + 8) == Some(argv)
  {
    CountRead(m, argv, envp, es);
    ArgvAt(m, m.base + 8, argv, envp, es);
    LoadPointersBack(m, m.base + 8, argv);
  }

  lemma {:induction false} CountRead(m: Memory, argv: seq<Word>, envp: seq<Word>, es: seq<AuxEntry>)
    requires Layout(m, argv, envp, es)
    ensures Load(m, m.base) == Some(|argv|)
  {
    assert PartAt(m, argv, envp, es, 0);
    LoadWord(m, m.base, |argv|);
  }

  lemma {:induction false} ArgvAt(m: Memory, p: int, argv: seq<Word>, envp: seq<Word>, es: seq<AuxEntry>)
    requires Layout(m, argv, envp, es) && p == m.base + 8
    ensures m.Holds(p, Words(argv)) && m.Holds(p + 8 * |argv|, Zeros(8))
  {
    assert PartAt(m, argv, envp, es, 1) && PartAt(m, argv, envp, es, 2);
  }

  lemma {:induction false} EnvsRead(m: Memory, argv: seq<Word>, envp: seq<Word>, es: seq<AuxEntry>)
    requires Layout(m, argv, envp, es) && 0 !in envp
    ensures LoadPointers(m, m.base + 16 + 8 * |argv|) == Some(envp)
  {
    assert PartAt(m, argv, envp, es, 3) && PartAt(m, argv, envp, es, 4);
    LoadPointersBack(m, m.base + 16 + 8 * |argv|, envp);
  }

  lemma {:induction false} EntriesAt(m: Memory, p: int, argv: seq<Word>, envp: seq<Word>, es: seq<AuxEntry>)
    requires Layout(m, argv, envp, es) && p == m.base + 24 + 8 * |argv| + 8 * |envp|
    ensures m.Holds(p, AuxBytes(es))
  {
    assert PartAt(m, argv, envp, es, 5);
  }

  lemma {:induction false} AuxRead(m: Memory, p: int, argv: seq<Word>, envp: seq<Word>, es: seq<AuxEntry>)
    requires Layout(m, argv, envp, es) && p == m.base + 24 + 8 * |argv| + 8 * |envp| && Terminated(es)
    ensures LoadAux(m, p) == Some(AuxPairs(es[..|es| - 1]))
  {
    EntriesAt(m, p, argv, envp, es);
    LoadAuxBack(m, p, es);
  }

  lemma {:induction false} RestReads(m: Memory, argv: seq<Word>, envp: seq<Word>, es: seq<AuxEntry>,
                                     args: seq<seq<Byte>>, envs: seq<seq<Byte>>)
    requires Layout(m, argv, envp, es)
    requires Point(m, argv, args) && Point(m, envp, envs)
    requires Terminated(es)
    ensures ReadRest(m, argv, envp) == Some(Frame(Strings(args), Strings(envs), AuxPairs(es[..|es| - 1])))
  {
    AuxRead(m, m.base + 24 + 8 * |argv| + 8 * |envp|, argv, envp, es);
    LoadStringsBack(m, argv, args);
    LoadStringsBack(m, envp, envs);
    RestOf(m, argv, envp, AuxPairs(es[..|es| - 1]), Strings(args), Strings(envs));
  }

  /** A frame laid out this way reads back as its parts. */
  lemma {:induction false} FrameReads(m: Memory, argv: seq<Word>, envp: seq<Word>, es: seq<AuxEntry>,
                                      args: seq<seq<Byte>>, envs: seq<seq<Byte>>)
    requires Layout(m, argv, envp, es)
    requires Point(m, argv, args) && Point(m, envp, envs)
    requires 0 !in argv && 0 !in envp && Terminated(es)
    ensures ReadFrame(m) == Some(Frame(Strings(args), Strings(envs), AuxPairs(es[..|es| - 1])))
  {
    assert ReadAfterArgs(m, argv) == Some(Frame(Strings(args), Strings(envs), AuxPairs(es[..|es| - 1]))) by {
      RestReads(m, argv, envp, es, args, envs);
      EnvsRead(m, argv, envp, es);
    }
    ArgsRead(m, argv, envp, es);
  }

  // ---- the builder --------------------------------------------------------------------------

  datatype StackError = Overflow

  /** Bytes the strings take, each with its terminator. */
  function Size(ss: seq<seq<Byte>>): (r: nat)
    ensures r >= |ss|
  {
    if ss == [] then 0 else Size(ss[..|ss| - 1]) + |ss[|ss| - 1]| + 1
  }

  lemma {:induction false} SizePrefix(ss: seq<seq<Byte>>, i: nat)
    requires i <= |ss|
    ensures Size(ss[..i]) <= Size(ss)
    ensures i < |ss| ==> Size(ss[..i + 1]) == Size(ss[..i]) + |ss[i]| + 1
  {
    if i < |ss| {
      assert ss[..i + 1][..i] == ss[..i];
      if i < |ss| - 1 {
        SizePrefix(ss[..|ss| - 1], i);
        assert ss[..|ss| - 1][..i] == ss[..i];
      }
    } else {
      assert ss[..i] == ss;
    }
  }

  lemma {:induction false} StringPushed(m: Memory, s: seq<Byte>)
    ensures var n := Below(Below(m, [0]), s);
            n.Holds(n.base, s + [0]) && Keeps(m, n) && n.base == m.base - |s| - 1
  {
    assert s + ([0] + m.bytes) == (s + [0]) + m.bytes;
    assert Below(Below(m, [0]), s) == Below(m, s + [0]);
    BelowHolds(m, s + [0]);
  }

  lemma {:induction false} PointMore(m: Memory, n: Memory, ps: seq<Word>, ss: seq<seq<Byte>>, i: nat, at: Word)
    requires i < |ss| && Keeps(m, n) && Point(m, ps, ss[..i]) && n.Holds(at, ss[i] + [0])
    ensures Point(n, ps + [at], ss[..i + 1])
  {
    PointKept(m, n, ps, ss[..i]);
  }

  /** Bytes of the vectors: entries, pointers and their nulls, `argc`. */
  function VectorSize(entries: nat, args: nat, envs: nat): nat {
    16 * entries + 8 * args + 8 * envs + 24
  }

  /** Bytes of padding below a stack pointer `at` ahead of `words` words. */
  function Padding(at: int, words: nat): nat
  {
    at % 16 + if words % 2 != 0 then 8 else 0
  }

  // ---- the auxiliary vector -----------------------------------------------------------------

  /** The entries before the first `AT_NULL`. */
  function CutAux(auxv: seq<AuxEntry>): (r: seq<AuxEntry>)
    ensures r <= auxv && (|r| < |auxv| ==> auxv[|r|].kind == AT_NULL)
    ensures forall i :: 0 <= i < |r| ==> r[i].kind != AT_NULL
  {
    if auxv == [] || auxv[0].kind == AT_NULL then [] else [auxv[0]] + CutAux(auxv[1..])
  }

  predicate Has(es: seq<AuxEntry>, kind: Word) {
    exists i :: 0 <= i < |es| && es[i].kind == kind
  }

  /** The entries put on the stack: the caller's, those added for it, the terminal one. */
  function Completed(cut: seq<AuxEntry>, random: Word, execfn: Word): seq<AuxEntry> {
    cut + ((if Has(cut, AT_RANDOM) then [] else [AuxEntry(AT_RANDOM, random)])
           + ((if Has(cut, AT_EXECFN) then [] else [AuxEntry(AT_EXECFN, execfn)]) + [NULL_ENTRY]))
  }

  method FindHelpers(cut: seq<AuxEntry>) returns (hasRandom: bool, hasExecfn: bool)
    ensures hasRandom == Has(cut, AT_RANDOM) && hasExecfn == Has(cut, AT_EXECFN)
  {
    hasRandom, hasExecfn := false, false;
    for i := 0 to |cut|
      invariant hasRandom == Has(cut[..i], AT_RANDOM) && hasExecfn == Has(cut[..i], AT_EXECFN)
    {
      if cut[i].kind == AT_RANDOM {
        hasRandom := true;
      }
      if cut[i].kind == AT_EXECFN {
        hasExecfn := true;
      }
      assert cut[..i + 1] == cut[..i] + [cut[i]];
      if hasRandom && hasExecfn {
        break;
      }
    }
    assert cut[..|cut|] == cut;
  }

  lemma {:induction false} AuxConcat(a: seq<AuxEntry>, b: seq<AuxEntry>)
    ensures AuxBytes(a + b) == AuxBytes(a) + AuxBytes(b)
  {
    if a == [] {
      assert a + b == b;
    } else {
      assert (a + b)[1..] == a[1..] + b;
      AuxConcat(a[1..], b);
    }
  }

  lemma {:induction false} AuxFour(a: seq<AuxEntry>, x: seq<AuxEntry>, y: seq<AuxEntry>, z: seq<AuxEntry>, rest: seq<Byte>)
    ensures AuxBytes(a + (x + (y + z))) + rest == AuxBytes(a) + (AuxBytes(x) + (AuxBytes(y) + (AuxBytes(z) + rest)))
  {
    AuxConcat(a, x + (y + z));
    AuxConcat(x, y + z);
    AuxConcat(y, z);
  }

  lemma {:induction false} AuxOne(e: AuxEntry, rest: seq<Byte>)
    ensures AuxBytes([e]) + rest == EntryBytes(e) + rest && AuxBytes([]) + rest == rest
  {
    assert [e][1..] == [];
  }

  lemma {:induction false} CompletedBytes(cut: seq<AuxEntry>, random: Word, execfn: Word, rest: seq<Byte>)
    ensures var n := EntryBytes(NULL_ENTRY) + rest;
            var e := if Has(cut, AT_EXECFN) then n else EntryBytes(AuxEntry(AT_EXECFN, execfn)) + n;
            var q := if Has(cut, AT_RANDOM) then e else EntryBytes(AuxEntry(AT_RANDOM, random)) + e;
            AuxBytes(Completed(cut, random, execfn)) + rest == AuxBytes(cut) + q
  {
    var y := if Has(cut, AT_EXECFN) then [] else [AuxEntry(AT_EXECFN, execfn)];
    var x := if Has(cut, AT_RANDOM) then [] else [AuxEntry(AT_RANDOM, random)];
    AuxFour(cut, x, y, [NULL_ENTRY], rest);
    var n := EntryBytes(NULL_ENTRY) + rest;
    AuxOne(NULL_ENTRY, rest);
    AuxOne(AuxEntry(AT_EXECFN, execfn), n);
    AuxOne(AuxEntry(AT_RANDOM, random), AuxBytes(y) + n);
  }

  // ---- the whole stack ----------------------------------------------------------------------

  /** Bytes of text and the end marker. */
  function TextSize(args: seq<seq<Byte>>, envs: seq<seq<Byte>>, execfn: seq<Byte>): nat {
    25 + |execfn| + Size(envs) + Size(args)
  }

  /** Bytes of the whole image below `sp`. */
  function FrameSize(args: seq<seq<Byte>>, envs: seq<seq<Byte>>, es: seq<AuxEntry>, sp: nat, execfn: seq<Byte>): nat {
    var text, words := TextSize(args, envs, execfn), |envs| + |args| + 3;
    text + Padding(sp - text, words) + VectorSize(|es|, |args|, |envs|)
  }

  /** There is room: for the texts, so that the added entries have addresses, and for all. */
  predicate FrameFits(args: seq<seq<Byte>>, envs: seq<seq<Byte>>, cut: seq<AuxEntry>, sp: Word, execfn: seq<Byte>) {
    && 17 + |execfn| <= sp
    && FrameSize(args, envs, Completed(cut, sp - 16, sp - 17 - |execfn|), sp, execfn) <= sp
  }

  lemma {:induction false} FrameAligned(at: nat, entries: nat, args: nat, envs: nat)
    ensures (at - Padding(at, envs + args + 3) - VectorSize(entries, args, envs)) % 16 == 0
  {
    var words := envs + args + 3;
    var h := words / 2;
    assert words == 2 * h + words % 2;
    var k := (if words % 2 != 0 then 1 else 0) + h + entries;
    assert at - Padding(at, words) - VectorSize(entries, args, envs) == 16 * (at / 16 - k);
  }

  /** Pointers into a memory that was since extended are not null. */
  lemma {:induction false} PointersNotNull(m: Memory, ps: seq<Word>, ss: seq<seq<Byte>>)
    requires Point(m, ps, ss) && m.base > 0
    ensures 0 !in ps
  {
    forall i | 0 <= i < |ps| ensures ps[i] != 0 {
      assert m.Holds(ps[i], ss[i] + [0]);
    }
  }

  /** Some pointer vectors are laid out in `m` and lead to these strings. */
  ghost predicate Built(m: Memory, args: seq<seq<Byte>>, envs: seq<seq<Byte>>, es: seq<AuxEntry>) {
    exists argv, envp {:trigger Layout(m, argv, envp, es)} ::
      Layout(m, argv, envp, es) && Point(m, argv, args) && Point(m, envp, envs) && 0 !in argv && 0 !in envp
  }

  lemma {:induction false} BuiltFrom(m1: Memory, m: Memory, args: seq<seq<Byte>>, envs: seq<seq<Byte>>,
                                     argv: seq<Word>, envp: seq<Word>, es: seq<AuxEntry>)
    requires Layout(m, argv, envp, es) && Keeps(m1, m) && m1.base > 0
    requires Point(m1, argv, args) && Point(m1, envp, envs)
    ensures Built(m, args, envs, es)
  {
    PointKept(m1, m, envp, envs);
    PointKept(m1, m, argv, args);
    PointersNotNull(m1, envp, envs);
    PointersNotNull(m1, argv, args);
  }

  lemma {:induction false} BuiltReads(m: Memory, args: seq<seq<Byte>>, envs: seq<seq<Byte>>, es: seq<AuxEntry>)
    requires Built(m, args, envs, es) && Terminated(es)
    ensures ReadFrame(m) == Some(Frame(Strings(args), Strings(envs), AuxPairs(es[..|es| - 1])))
  {
    var argv, envp :| Layout(m, argv, envp, es) && Point(m, argv, args) && Point(m, envp, envs)
      && 0 !in argv && 0 !in envp;
    FrameReads(m, argv, envp, es, args, envs);
  }

  lemma {:induction false} NoRoom(args: seq<seq<Byte>>, envs: seq<seq<Byte>>, cut: seq<AuxEntry>, sp: Word,
                                  execfn: seq<Byte>, text: nat, words: nat)
    requires text == TextSize(args, envs, execfn) && words == |envs| + |args| + 3
    requires sp < text - 8 || sp < text + Padding(sp - text, words)
    ensures !FrameFits(args, envs, cut, sp, execfn)
  {
  }

  lemma {:induction false} Fits(args: seq<seq<Byte>>, envs: seq<seq<Byte>>, cut: seq<AuxEntry>, sp: Word,
                                execfn: seq<Byte>, text: nat, words: nat)
    requires text == TextSize(args, envs, execfn) && words == |envs| + |args| + 3
    requires 17 + |execfn| <= sp
    ensures FrameFits(args, envs, cut, sp, execfn) ==> text <= sp
    ensures text <= sp ==>
              var size := text + Padding(sp - text, words)
                          + VectorSize(|Completed(cut, sp - 16, sp - 17 - |execfn|)|, |args|, |envs|);
              && (FrameFits(args, envs, cut, sp, execfn) <==> size <= sp)
              && (sp - size) % 16 == 0
  {
    if text <= sp {
      FrameAligned(sp - text, |Completed(cut, sp - 16, sp - 17 - |execfn|)|, |args|, |envs|);
    }
  }

  /** Part `k` of the whole stack: the frame, the random bytes, the executed path. */
  ghost predicate LaidPart(m: Memory, args: seq<seq<Byte>>, envs: seq<seq<Byte>>, es: seq<AuxEntry>,
                           random: seq<Byte>, execfn: seq<Byte>, k: nat)
  {
    match k
    case 0 => Built(m, args, envs, es)
    case 1 => m.Holds(m.End() - 16, random)
    case _ => m.Holds(m.End() - 17 - |execfn|, execfn + [0])
  }

  ghost predicate Laid(m: Memory, args: seq<seq<Byte>>, envs: seq<seq<Byte>>, es: seq<AuxEntry>,
                       random: seq<Byte>, execfn: seq<Byte>)
  {
    forall k: nat :: LaidPart(m, args, envs, es, random, execfn, k)
  }

  lemma {:induction false} LaidKept(m1: Memory, m: Memory, args: seq<seq<Byte>>, envs: seq<seq<Byte>>, es: seq<AuxEntry>,
                                    random: seq<Byte>, execfn: seq<Byte>)
    requires Keeps(m1, m) && Built(m, args, envs, es)
    requires m1.Holds(m.End() - 16, random) && m1.Holds(m.End() - 17 - |execfn|, execfn + [0])
    ensures Laid(m, args, envs, es, random, execfn)
  {
  }

  /** The image, grown downwards from `sp` by prepending. */
  class StackBuilder {
    const sp: Word
    var data: seq<Byte>

    constructor (sp: Word)
      ensures this.sp == sp && data == []
    {
      this.sp := sp;
      data := [];
    }

    ghost function Image(): Memory
      reads this
    {
      Memory(sp - |data|, data)
    }

    /** Prepend `src`; the new lowest address, or overflow below address zero. */
    method Push(src: seq<Byte>) returns (r: Result<Word, StackError>)
      modifies this
      ensures data == src + old(data)
      ensures r == if |data| <= sp then Ok(sp - |data|) else Err(Overflow)
    {
      data := src + data;
      r := if |data| <= sp then Ok(sp - |data|) else Err(Overflow);
    }

    /** Push a terminator and a string below it; where the string starts. */
    method PushString(s: seq<Byte>) returns (r: Result<Word, StackError>)
      modifies this
      ensures r.Ok? <==> |old(data)| + |s| + 1 <= sp
      ensures r.Ok? ==> |data| == |old(data)| + |s| + 1 && r.value == sp - |data|
      ensures r.Ok? ==> Keeps(old(Image()), Image()) && Image().Holds(r.value, s + [0])
    {
      ghost var m := Image();
      r := Push([0]);
      if r.Ok? {
        r := Push(s);
      }
      StringPushed(m, s);
    }

    /** Push every string behind its terminator; where each one starts. */
    method PushStrings(ss: seq<seq<Byte>>) returns (r: Result<seq<Word>, StackError>)
      requires |data| <= sp
      modifies this
      ensures r.Ok? <==> |old(data)| + Size(ss) <= sp
      ensures r.Ok? ==> |data| == |old(data)| + Size(ss) && Keeps(old(Image()), Image())
      ensures r.Ok? ==> Point(Image(), r.value, ss)
    {
      ghost var m := Image();
      var ptrs: seq<Word> := [];
      var i := 0;
      while i < |ss|
        invariant i <= |ss|
        invariant |data| == |old(data)| + Size(ss[..i]) <= sp
        invariant Keeps(m, Image()) && Point(Image(), ptrs, ss[..i])
      {
        ghost var before := Image();
        SizePrefix(ss, i);
        SizePrefix(ss, i + 1);
        var at := PushString(ss[i]);
        if at.Err? {
          return Err(Overflow);
        }
        PointMore(before, Image(), ptrs, ss, i, at.value);
        ptrs := ptrs + [at.value];
        i := i + 1;
      }
      assert ss[..i] == ss;
      return Ok(ptrs);
    }

    /** The random bytes and the executed path. */
    method PushHead(random: seq<Byte>, execfn: seq<Byte>) returns (r: Result<Word, StackError>)
      requires data == [] && |random| == 16
      modifies this
      ensures r.Ok? <==> 17 + |execfn| <= sp
      ensures r.Ok? ==> |data| == 17 + |execfn|
      ensures r.Ok? ==> Image().Holds(sp - 16, random) && Image().Holds(sp - 17 - |execfn|, execfn + [0])
    {
      r := Push(random);
      if r.Ok? {
        r := PushString(execfn);
      }
    }

    /** The auxiliary vector, from its terminal entry backwards. */
    method PushAux(cut: seq<AuxEntry>, random: Word, execfn: Word) returns (r: Result<Word, StackError>)
      requires |data| <= sp
      modifies this
      ensures r.Ok? <==> |old(data)| + 16 * |Completed(cut, random, execfn)| <= sp
      ensures r.Ok? ==> data == AuxBytes(Completed(cut, random, execfn)) + old(data)
    {
      var hasRandom, hasExecfn := FindHelpers(cut);
      CompletedBytes(cut, random, execfn, data);
      r := Push(EntryBytes(NULL_ENTRY));
      if r.Ok? && !hasExecfn {
        r := Push(EntryBytes(AuxEntry(AT_EXECFN, execfn)));
      }
      if r.Ok? && !hasRandom {
        r := Push(EntryBytes(AuxEntry(AT_RANDOM, random)));
      }
      if r.Ok? {
        r := Push(AuxBytes(cut));
      }
    }

    /** The environment and argument vectors with their nulls, then `argc`. */
    method PushVectors(argc: Word, argv: seq<Word>, envp: seq<Word>) returns (r: Result<Word, StackError>)
      requires |data| <= sp
      modifies this
      ensures r.Ok? <==> |old(data)| + 8 * |argv| + 8 * |envp| + 24 <= sp
      ensures r.Ok? ==> data == Le(8, argc) + (Words(argv) + (Zeros(8) + (Words(envp) + (Zeros(8) + old(data)))))
      ensures r.Ok? ==> r.value == sp - |data|
    {
      r := Push(Zeros(8));
      if r.Ok? {
        r := Push(Words(envp));
      }
      if r.Ok? {
        r := Push(Zeros(8));
      }
      if r.Ok? {
        r := Push(Words(argv));
      }
      if r.Ok? {
        r := Push(Le(8, argc));
      }
    }

    /** The auxiliary vector and the pointer vectors below it. */
    method PushFrame(cut: seq<AuxEntry>, random: Word, execfn: Word, argv: seq<Word>, envp: seq<Word>,
                     ghost args: seq<seq<Byte>>, ghost envs: seq<seq<Byte>>)
      returns (r: Result<Word, StackError>)
      requires |data| <= sp && |argv| < TWO64 && Point(Image(), argv, args) && Point(Image(), envp, envs)
      modifies this
      ensures var size := VectorSize(|Completed(cut, random, execfn)|, |argv|, |envp|);
              && (r.Ok? <==> |old(data)| + size <= sp)
              && (r.Ok? ==> |data| == |old(data)| + size && r.value == sp - |data|)
      ensures r.Ok? ==> Keeps(old(Image()), Image()) && Built(Image(), args, envs, Completed(cut, random, execfn))
    {
      ghost var m, rest := Image(), data;
      r := PushAux(cut, random, execfn);
      if r.Ok? {
        r := PushVectors(|argv|, argv, envp);
        if r.Ok? {
          ghost var es := Completed(cut, random, execfn);
          VectorsKeep(m, Image(), |argv|, argv, envp, es);
          LaidOut(Image(), argv, envp, es, rest);
          BuiltFrom(m, Image(), args, envs, argv, envp, es);
        }
      }
    }

    /** Null padding: eight bytes, down to a 16-byte boundary, and eight more when an odd
        number of words follows. */
    method PushPadding(words: nat, ghost text: nat) returns (r: Result<Word, StackError>)
      requires |data| <= sp && text == |data| + 8
      modifies this
      ensures r.Ok? <==> text <= sp && text + Padding(sp - text, words) <= sp
      ensures r.Ok? ==> |data| == text + Padding(sp - text, words)
      ensures r.Ok? ==> Keeps(old(Image()), Image())
    {
      ghost var m := Image();
      r := Push(Zeros(8));
      BelowHolds(m, Zeros(8));
      if r.Ok? {
        ghost var m1, fill := Image(), Zeros(r.value % 16);
        r := Push(Zeros(r.value % 16));
        BelowHolds(m1, fill);
      }
      if r.Ok? && words % 2 != 0 {
        ghost var m2 := Image();
        r := Push(Zeros(8));
        BelowHolds(m2, Zeros(8));
      }
    }

    /** What lies below the strings: the padding, then the frame. */
    method PushBelow(words: nat, ghost text: nat, cut: seq<AuxEntry>, random: Word, execfn: Word,
                     argv: seq<Word>, envp: seq<Word>, ghost args: seq<seq<Byte>>, ghost envs: seq<seq<Byte>>)
      returns (r: Result<Word, StackError>)
      requires |data| <= sp && text == |data| + 8 && |argv| < TWO64
      requires Point(Image(), argv, args) && Point(Image(), envp, envs)
      modifies this
      ensures var frame := VectorSize(|Completed(cut, random, execfn)|, |argv|, |envp|);
              && (r.Ok? <==> text <= sp && text + Padding(sp - text, words) + frame <= sp)
              && (r.Ok? ==> |data| == text + Padding(sp - text, words) + frame)
      ensures r.Ok? ==> Keeps(old(Image()), Image()) && Built(Image(), args, envs, Completed(cut, random, execfn))
    {
      ghost var m := Image();
      r := PushPadding(words, text);
      if r.Ok? {
        PointKept(m, Image(), envp, envs);
        PointKept(m, Image(), argv, args);
        r := PushFrame(cut, random, execfn, argv, envp, args, envs);
      }
    }

    /** The random bytes, the executed path, the environment and the arguments. */
    method PushTexts(random: seq<Byte>, execfn: seq<Byte>, envs: seq<seq<Byte>>, args: seq<seq<Byte>>)
      returns (r: Result<(seq<Word>, seq<Word>), StackError>)
      requires data == [] && |random| == 16
      modifies this
      ensures r.Ok? <==> 17 + |execfn| + Size(envs) + Size(args) <= sp
      ensures r.Ok? ==> |data| == 17 + |execfn| + Size(envs) + Size(args)
      ensures r.Ok? ==> Point(Image(), r.value.0, envs) && Point(Image(), r.value.1, args)
      ensures r.Ok? ==> Image().Holds(sp - 16, random) && Image().Holds(sp - 17 - |execfn|, execfn + [0])
    {
      var w := PushHead(random, execfn);
      if w.Err? {
        return Err(Overflow);
      }
      ghost var m1 := Image();
      var envp := PushStrings(envs);
      if envp.Err? {
        return Err(Overflow);
      }
      ghost var m2 := Image();
      var argv := PushStrings(args);
      if argv.Err? {
        return Err(Overflow);
      }
      PointKept(m2, Image(), envp.value, envs);
      return Ok((envp.value, argv.value));
    }

    /** Texts, padding and frame; `text` is the size of the texts and of the padding's first word. */
    method PushAll(words: nat, ghost text: nat, args: seq<seq<Byte>>, envs: seq<seq<Byte>>, cut: seq<AuxEntry>,
                   random: seq<Byte>, execfn: seq<Byte>) returns (r: Result<Word, StackError>)
      requires data == [] && |random| == 16 && text == TextSize(args, envs, execfn)
      modifies this
      ensures r.Ok? ==> text <= sp
      ensures text <= sp ==>
                var es := Completed(cut, sp - 16, sp - 17 - |execfn|);
                var size := text + Padding(sp - text, words) + VectorSize(|es|, |args|, |envs|);
                && (r.Ok? <==> size <= sp)
                && (r.Ok? ==> |data| == size && Laid(Image(), args, envs, es, random, execfn))
    {
      var texts := PushTexts(random, execfn, envs, args);
      if texts.Err? {
        return Err(Overflow);
      }
      ghost var m := Image();
      var (envp, argv) := texts.value;
      r := PushBelow(words, text, cut, sp - 16, sp - 17 - |execfn|, argv, envp, args, envs);
      if r.Ok? {
        LaidKept(m, Image(), args, envs, Completed(cut, sp - 16, sp - 17 - |execfn|), random, execfn);
      }
    }
  }

  method BuildStack(args: seq<seq<Byte>>, envs: seq<seq<Byte>>, cut: seq<AuxEntry>, sp: Word,
                    random: seq<Byte>, execfn: seq<Byte>) returns (r: Result<seq<Byte>, StackError>, ghost m: Memory)
    requires |random| == 16
    ensures r.Ok? <==> FrameFits(args, envs, cut, sp, execfn)
    ensures r.Ok? ==>
              && m == Memory(sp - |r.value|, r.value) && m.base >= 0 && m.base % 16 == 0
              && Laid(m, args, envs, Completed(cut, sp - 16, sp - 17 - |execfn|), random, execfn)
  {
    ghost var text := TextSize(args, envs, execfn);
    var words := |envs| + |args| + 3;
    var stack := new StackBuilder(sp);
    m := stack.Image();
    var w := stack.PushAll(words, text, args, envs, cut, random, execfn);
    if sp < text - 8 {
      NoRoom(args, envs, cut, sp, execfn, text, words);
    } else {
      Fits(args, envs, cut, sp, execfn, text, words);
    }
    if w.Err? {
      return Err(Overflow), m;
    }
    m := stack.Image();
    return Ok(stack.data), m;
  }

  lemma {:induction false} Regroup(a: seq<Byte>, b: seq<Byte>, c: seq<Byte>)
    ensures a + (b + c) == (a + b) + c
  {
  }

  lemma {:induction false} VectorsKeep(m2: Memory, m: Memory, argc: Word, argv: seq<Word>, envp: seq<Word>, es: seq<AuxEntry>)
    requires m.bytes == Vectors(argc, argv, envp, es, m2.bytes) && m.End() == m2.End()
    ensures Keeps(m2, m) && m.base < m2.base
    ensures m.Holds(m.base, Vectors(argc, argv, envp, es, m2.bytes))
  {
    var f4 := Zeros(8) + AuxBytes(es);
    var f3 := Words(envp) + f4;
    var f2 := Zeros(8) + f3;
    var f1 := Words(argv) + f2;
    Regroup(Zeros(8), AuxBytes(es), m2.bytes);
    Regroup(Words(envp), f4, m2.bytes);
    Regroup(Zeros(8), f3, m2.bytes);
    Regroup(Words(argv), f2, m2.bytes);
    Regroup(Le(8, argc), f1, m2.bytes);
    BelowHolds(m2, Le(8, argc) + f1);
  }

  lemma {:induction false} CompletedTerminated(auxv: seq<AuxEntry>, random: Word, execfn: Word)
    ensures Terminated(Completed(CutAux(auxv), random, execfn))
  {
  }

  /** What a program is given: its arguments, its environment, its auxiliary entries, and
      the data the added entries lead to. */
  ghost predicate Delivers(m: Memory, args: seq<seq<Byte>>, envs: seq<seq<Byte>>, es: seq<AuxEntry>,
                           random: seq<Byte>, execfn: seq<Byte>)
    requires es != []
  {
    && ReadFrame(m) == Some(Frame(Strings(args), Strings(envs), AuxPairs(es[..|es| - 1])))
    && m.Holds(m.End() - 16, random) && LoadString(m, m.End() - 17 - |execfn|) == Some(UpToNul(execfn))
  }

  lemma {:induction false} Delivered(m: Memory, args: seq<seq<Byte>>, envs: seq<seq<Byte>>, es: seq<AuxEntry>,
                                     random: seq<Byte>, execfn: seq<Byte>)
    requires Laid(m, args, envs, es, random, execfn) && Terminated(es)
    ensures Delivers(m, args, envs, es, random, execfn)
  {
    assert LaidPart(m, args, envs, es, random, execfn, 0) && LaidPart(m, args, envs, es, random, execfn, 1);
    assert LaidPart(m, args, envs, es, random, execfn, 2);
    BuiltReads(m, args, envs, es);
    LoadStringBack(m, m.End() - 17 - |execfn|, execfn);
  }

  /** The stack of a new program: it fails exactly when `sp` is too low for the frame. */
  method AppStackRegion(args: seq<seq<Byte>>, envs: seq<seq<Byte>>, auxv: seq<AuxEntry>, sp: Word,
                        random: seq<Byte>, execfn: seq<Byte>) returns (r: Result<seq<Byte>, StackError>)
    requires |random| == 16
    ensures r.Ok? <==> FrameFits(args, envs, CutAux(auxv), sp, execfn)
    ensures r.Ok? ==> sp >= |r.value| && (sp - |r.value|) % 16 == 0
    ensures r.Ok? ==>
              Delivers(Memory(sp - |r.value|, r.value), args, envs,
                       Completed(CutAux(auxv), sp - 16, sp - 17 - |execfn|), random, execfn)
  {
    ghost var m;
    r, m := BuildStack(args, envs, CutAux(auxv), sp, random, execfn);
    if r.Ok? {
      CompletedTerminated(auxv, sp - 16, sp - 17 - |execfn|);
      Delivered(m, args, envs, Completed(CutAux(auxv), sp - 16, sp - 17 - |execfn|), random, execfn);
    }
  }

  /** Strings without a NUL are delivered whole. */
  lemma {:induction false} DeliversWhole(m: Memory, args: seq<seq<Byte>>, envs: seq<seq<Byte>>, es: seq<AuxEntry>,
                                         random: seq<Byte>, execfn: seq<Byte>)
    requires es != [] && Delivers(m, args, envs, es, random, execfn)
    requires (forall i :: 0 <= i < |args| ==> 0 !in args[i]) && (forall i :: 0 <= i < |envs| ==> 0 !in envs[i]) && 0 !in execfn
    ensures ReadFrame(m) == Some(Frame(args, envs, AuxPairs(es[..|es| - 1])))
    ensures LoadString(m, m.End() - 17 - |execfn|) == Some(execfn)
  {
    StringsWhole(args);
    StringsWhole(envs);
  }

  lemma {:induction false} PairsAre(es: seq<AuxEntry>)
    ensures |AuxPairs(es)| == |es| && forall i :: 0 <= i < |es| ==> AuxPairs(es)[i] == (es[i].kind, es[i].value)
  {
    if es != [] {
      PairsAre(es[1..]);
      forall i | 0 <= i < |es| ensures AuxPairs(es)[i] == (es[i].kind, es[i].value) {
        assert i > 0 ==> es[i] == es[1..][i - 1];
      }
    }
  }

  /** The auxiliary vector a program reads: the caller's entries before the first of kind 0, in
      order; for kind 25 (the random bytes) and kind 31 (the executed path) an entry each
      unless the caller gave its own; and the entry of zeroes that ends it. */
  lemma {:induction false} AuxVectorRead(auxv: seq<AuxEntry>, random: Word, execfn: Word)
    ensures var k := |CutAux(auxv)|;
            && k <= |auxv| && (forall i :: 0 <= i < k ==> auxv[i].kind != 0) && (k < |auxv| ==> auxv[k].kind == 0)
            && AuxPairs(Completed(CutAux(auxv), random, execfn)) ==
               AuxPairs(auxv[..k])
               + (if exists i :: 0 <= i < k && auxv[i].kind == 25 then [] else [(25, random)])
               + (if exists i :: 0 <= i < k && auxv[i].kind == 31 then [] else [(31, execfn)])
               + [(0, 0)]
  {
    var cut := CutAux(auxv);
    assert cut == auxv[..|cut|];
    CutHas(auxv, 25);
    CutHas(auxv, 31);
    PairsOfFour(cut, if Has(cut, 25) then [] else [AuxEntry(25, random)],
                if Has(cut, 31) then [] else [AuxEntry(31, execfn)]);
    PairOf(25, random);
    PairOf(31, execfn);
  }

  lemma {:induction false} CutHas(auxv: seq<AuxEntry>, kind: Word)
    ensures Has(CutAux(auxv), kind) <==> exists i :: 0 <= i < |CutAux(auxv)| && auxv[i].kind == kind
  {
  }

  lemma {:induction false} PairOf(kind: Word, value: Word)
    ensures AuxPairs([AuxEntry(kind, value)]) == [(kind, value)] && AuxPairs([]) == []
  {
    PairsAre([AuxEntry(kind, value)]);
    PairsAre([]);
  }

  lemma {:induction false} PairsOfFour(cut: seq<AuxEntry>, a: seq<AuxEntry>, b: seq<AuxEntry>)
    ensures AuxPairs(cut + (a + (b + [NULL_ENTRY]))) == AuxPairs(cut) + AuxPairs(a) + AuxPairs(b) + [(0, 0)]
  {
    PairsConcat(cut, a + (b + [NULL_ENTRY]));
    PairsConcat(a, b + [NULL_ENTRY]);
    PairsConcat(b, [NULL_ENTRY]);
    PairOf(0, 0);
  }

  lemma {:induction false} PairsConcat(a: seq<AuxEntry>, b: seq<AuxEntry>)
    ensures AuxPairs(a + b) == AuxPairs(a) + AuxPairs(b)
  {
    PairsAre(a);
    PairsAre(b);
    PairsAre(a + b);
  }
}
