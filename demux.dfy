/**
 * The FIC/MSC demultiplexer: a transmission frame is symbols_fic symbols of
 * the Fast Information Channel followed by symbols_msc symbols of the Main
 * Service Channel. Symbols are routed to the two outputs in that rhythm; a
 * "Start" tag on a symbol begins a new frame, and a channel left incomplete
 * by it is padded with fill values first.
 *
 * The outputs are modelled as memory images (element index to value), because
 * the block's write positions come from counters that are never reset, not
 * from the space of the current call.
 */
module Demux {
  import opened Signal

  /** An output buffer: the value of every element written so far. */
  type Memory = map<nat, Complex>

  /** Element k lies in the len elements from start on. */
  predicate InSpan(start: nat, len: nat, k: nat)
  {
    start <= k < start + len
  }

  /** The element indices of a span (InSpan gives the membership test its trigger). */
  function Span(start: nat, len: nat): set<nat>
  {
    set k: nat | start <= k < start + len && InSpan(start, len, k)
  }

  /** buf with the len elements from start on set to v (the fill loops). */
  function Filled(buf: Memory, start: nat, len: nat, v: Complex): (r: Memory)
    ensures forall k :: k in r <==> k in buf || start <= k < start + len
    ensures forall k :: k in r ==> r[k] == if start <= k < start + len then v else buf[k]
  {
    map k | k in buf.Keys + Span(start, len) :: if InSpan(start, len, k) then v else buf[k]
  }

  /** Filling nothing leaves the buffer as it was. */
  lemma FilledNothing(buf: Memory, start: nat, v: Complex)
    ensures Filled(buf, start, 0, v) == buf
  {
  }

  /** buf with src copied to the elements from start on (a memcpy). */
  function Copied(buf: Memory, start: nat, src: seq<Complex>): (r: Memory)
    ensures forall k :: k in r <==> k in buf || start <= k < start + |src|
    ensures forall k :: k in r ==> r[k] == if start <= k < start + |src| then src[k - start] else buf[k]
  {
    map k | k in buf.Keys + Span(start, |src|) :: if InSpan(start, |src|, k) then src[k - start] else buf[k]
  }

  /** Two copies back to back keep both sources whole: element k of each is where it was copied. */
  lemma AdjacentCopies(buf: Memory, first: nat, second: nat, a: seq<Complex>, b: seq<Complex>, k: nat)
    requires second == first + |a| && k < |a| && k < |b|
    ensures var r := Copied(Copied(buf, first, a), second, b);
      first + k in r && r[first + k] == a[k] && second + k in r && r[second + k] == b[k]
  {
    CopiedAt(buf, first, a, k);
    CopiedBelow(Copied(buf, first, a), second, b, first + k);
    CopiedAt(Copied(buf, first, a), second, b, k);
  }

  /** The next multiple of n is n further on. */
  lemma NextMultiple(w: nat, n: nat)
    ensures (w + 1) * n == w * n + n
  {
  }

  /** Element start + k of a copy holds src[k]. */
  lemma CopiedAt(buf: Memory, start: nat, src: seq<Complex>, k: nat)
    requires k < |src|
    ensures start + k in Copied(buf, start, src) && Copied(buf, start, src)[start + k] == src[k]
  {
  }

  /** A copy leaves the elements below its start as they were. */
  lemma CopiedBelow(buf: Memory, start: nat, src: seq<Complex>, x: nat)
    requires x in buf && x < start
    ensures x in Copied(buf, start, src) && Copied(buf, start, src)[x] == buf[x]
  {
  }

  /** d_on_fic, d_symbol_count, d_fic_syms_written and d_msc_syms_written. */
  datatype Counters = Counters(onFic: bool, count: nat, ficWritten: nat, mscWritten: nat)

  /** The counters and the two output images. */
  datatype State = State(c: Counters, fic: Memory, msc: Memory)

  /**
   * The next unconsumed tag before symbol i: a tag is consumed only when it
   * sits exactly on the start of the current symbol.
   */
  function SymbolCursor(tags: seq<nat>, symbolLength: nat, i: nat): (c: nat)
    ensures c <= |tags| && c <= i
  {
    if i == 0 then 0
    else
      var c := SymbolCursor(tags, symbolLength, i - 1);
      if c < |tags| && tags[c] == (i - 1) * symbolLength then c + 1 else c
  }

  /** Symbol i begins a new frame. */
  predicate SymbolHit(tags: seq<nat>, symbolLength: nat, i: nat)
  {
    var c := SymbolCursor(tags, symbolLength, i);
    c < |tags| && tags[c] == i * symbolLength
  }

  /** Every consumed tag sat on a symbol start. */
  lemma {:induction false} ConsumedTagsAligned(tags: seq<nat>, symbolLength: nat, i: nat)
    requires 0 < symbolLength
    ensures forall a :: 0 <= a < SymbolCursor(tags, symbolLength, i) ==> tags[a] % symbolLength == 0
  {
    if i > 0 {
      ConsumedTagsAligned(tags, symbolLength, i - 1);
      MultipleIsAligned(i - 1, symbolLength);
    }
  }

  /** A multiple of L leaves no remainder. */
  lemma MultipleIsAligned(j: nat, symbolLength: nat)
    requires 0 < symbolLength
    ensures (j * symbolLength) % symbolLength == 0
  {
    var x := j * symbolLength;
    var q, r := x / symbolLength, x % symbolLength;
    assert x == q * symbolLength + r;
    assert (j - q) * symbolLength == r;
    ProductSign(j - q, symbolLength);
  }

  /**
   * A tag that is not on a symbol start is never consumed, and every later tag
   * of the call is ignored with it.
   */
  lemma MisalignedTagBlocks(tags: seq<nat>, symbolLength: nat, a: nat, i: nat)
    requires 0 < symbolLength && a < |tags| && tags[a] % symbolLength != 0
    ensures SymbolCursor(tags, symbolLength, i) <= a
    ensures !SymbolHit(tags, symbolLength, i) || SymbolCursor(tags, symbolLength, i) < a
  {
    ConsumedTagsAligned(tags, symbolLength, i);
    if SymbolHit(tags, symbolLength, i) && SymbolCursor(tags, symbolLength, i) == a {
      MultipleIsAligned(i, symbolLength);
    }
  }

  /** Tags at symbol starts, strictly ascending. */
  predicate AlignedAscending(tags: seq<nat>, symbolLength: nat)
    requires 0 < symbolLength
  {
    (forall a :: 0 <= a < |tags| ==> tags[a] % symbolLength == 0)
    && (forall a, b :: 0 <= a < b < |tags| ==> tags[a] < tags[b])
  }

  /** With aligned, ascending tags the cursor has passed exactly the tags before symbol i. */
  lemma {:induction false} SymbolCursorPosition(tags: seq<nat>, symbolLength: nat, i: nat)
    requires 0 < symbolLength && AlignedAscending(tags, symbolLength)
    ensures forall a :: 0 <= a < SymbolCursor(tags, symbolLength, i) ==> tags[a] < i * symbolLength
    ensures forall a :: SymbolCursor(tags, symbolLength, i) <= a < |tags| ==> tags[a] >= i * symbolLength
  {
    if i > 0 {
      SymbolCursorPosition(tags, symbolLength, i - 1);
      var c := SymbolCursor(tags, symbolLength, i - 1);
      forall a | c <= a < |tags| && tags[a] != (i - 1) * symbolLength
        ensures tags[a] >= i * symbolLength
      {
        AlignedAbove(tags[a], symbolLength, i - 1);
      }
    }
  }

  /** A multiple of L above (i - 1) L is at least i L. */
  lemma AlignedAbove(t: nat, symbolLength: nat, j: nat)
    requires 0 < symbolLength && t % symbolLength == 0 && t > j * symbolLength
    ensures t >= (j + 1) * symbolLength
  {
    var q := t / symbolLength;
    assert t == q * symbolLength;
    assert (q - j) * symbolLength > 0;
    ProductSign(q - j, symbolLength);
    ProductSign(q - j - 1, symbolLength);
  }

  /** The sign of d * n, for positive n, is the sign of d; a non-zero product is at least n in size. */
  lemma ProductSign(d: int, n: int)
    requires n > 0
    ensures d * n > 0 <==> d > 0
    ensures d * n >= 0 <==> d >= 0
    ensures 0 <= d * n < n ==> d == 0
    decreases if d > 0 then d else -d
  {
    if d > 0 {
      assert d * n == (d - 1) * n + n;
      ProductSign(d - 1, n);
    } else if d < 0 {
      assert d * n == (d + 1) * n - n;
      ProductSign(d + 1, n);
    }
  }

  /** With aligned, ascending tags a symbol starts a frame exactly when a tag sits on its start. */
  lemma TagsAtSymbolStarts(tags: seq<nat>, symbolLength: nat, i: nat)
    requires 0 < symbolLength && AlignedAscending(tags, symbolLength)
    ensures SymbolHit(tags, symbolLength, i) <==> i * symbolLength in tags
  {
    SymbolCursorPosition(tags, symbolLength, i);
    var c := SymbolCursor(tags, symbolLength, i);
    if i * symbolLength in tags {
      var a :| 0 <= a < |tags| && tags[a] == i * symbolLength;
    }
    if SymbolHit(tags, symbolLength, i) {
      assert tags[c] in tags;
    }
  }

  /**
   * One symbol routed: to the FIC while on_fic, to the MSC otherwise; the
   * active channel switches when its quota is reached.
   */
  function CountSymbol(symbolsFic: nat, symbolsMsc: nat, c: Counters): (r: Counters)
    ensures r.ficWritten + r.mscWritten == c.ficWritten + c.mscWritten + 1
    ensures r.ficWritten == c.ficWritten + (if c.onFic then 1 else 0)
  {
    if c.onFic then
      var n := c.count + 1;
      if n >= symbolsFic then Counters(false, 0, c.ficWritten + 1, c.mscWritten)
      else Counters(true, n, c.ficWritten + 1, c.mscWritten)
    else
      var n := c.count + 1;
      if n >= symbolsMsc then Counters(true, 0, c.ficWritten, c.mscWritten + 1)
      else Counters(false, n, c.ficWritten, c.mscWritten + 1)
  }

  /** The count stays below the active channel's quota (or is 0) between symbols. */
  predicate BelowQuota(symbolsFic: nat, symbolsMsc: nat, c: Counters)
  {
    c.count == 0 || c.count < (if c.onFic then symbolsFic else symbolsMsc)
  }

  /** Routing a symbol, or starting a frame, leaves the count below the quota. */
  lemma CountsBelowQuota(symbolsFic: nat, symbolsMsc: nat, c: Counters)
    ensures BelowQuota(symbolsFic, symbolsMsc, CountSymbol(symbolsFic, symbolsMsc, c))
    ensures BelowQuota(symbolsFic, symbolsMsc, FrameStart(symbolsFic, symbolsMsc, c))
  {
  }

  /** The symbols of fill that a tag puts into the FIC: what the current FIC part still lacks. */
  function FicFill(symbolsFic: nat, c: Counters): nat
  {
    if c.onFic && c.count < symbolsFic then symbolsFic - c.count else 0
  }

  /** The symbols of fill that a tag puts into the MSC. */
  function MscFill(symbolsMsc: nat, c: Counters): nat
  {
    if !c.onFic && c.count < symbolsMsc then symbolsMsc - c.count else 0
  }

  /** A tag: the active channel is padded to its quota, and a frame starts on the FIC. */
  function FrameStart(symbolsFic: nat, symbolsMsc: nat, c: Counters): (r: Counters)
    ensures r.onFic && r.count == 0
  {
    Counters(true, 0, c.ficWritten + FicFill(symbolsFic, c), c.mscWritten + MscFill(symbolsMsc, c))
  }

  /** Only the active channel is padded, and by exactly its missing symbols. */
  lemma PadsActiveChannelOnly(symbolsFic: nat, symbolsMsc: nat, c: Counters)
    requires BelowQuota(symbolsFic, symbolsMsc, c)
    ensures c.onFic ==> FrameStart(symbolsFic, symbolsMsc, c).mscWritten == c.mscWritten
    ensures c.onFic && 0 < symbolsFic ==>
      FrameStart(symbolsFic, symbolsMsc, c).ficWritten == c.ficWritten + symbolsFic - c.count
    ensures !c.onFic ==> FrameStart(symbolsFic, symbolsMsc, c).ficWritten == c.ficWritten
    ensures !c.onFic && 0 < symbolsMsc ==>
      FrameStart(symbolsFic, symbolsMsc, c).mscWritten == c.mscWritten + symbolsMsc - c.count
  {
  }

  /** k untagged symbols routed from c. */
  function AfterSymbols(symbolsFic: nat, symbolsMsc: nat, c: Counters, k: nat): Counters
  {
    if k == 0 then c else CountSymbol(symbolsFic, symbolsMsc, AfterSymbols(symbolsFic, symbolsMsc, c, k - 1))
  }

  lemma {:induction false} FicPart(symbolsFic: nat, symbolsMsc: nat, w1: nat, w2: nat, j: nat)
    requires 0 < symbolsFic && j < symbolsFic
    ensures AfterSymbols(symbolsFic, symbolsMsc, Counters(true, 0, w1, w2), j) == Counters(true, j, w1 + j, w2)
  {
    if j > 0 {
      FicPart(symbolsFic, symbolsMsc, w1, w2, j - 1);
    }
  }

  lemma {:induction false} MscPart(symbolsFic: nat, symbolsMsc: nat, w1: nat, w2: nat, j: nat)
    requires 0 < symbolsFic && 0 < symbolsMsc && j < symbolsMsc
    ensures AfterSymbols(symbolsFic, symbolsMsc, Counters(true, 0, w1, w2), symbolsFic + j)
         == Counters(false, j, w1 + symbolsFic, w2 + j)
  {
    if j > 0 {
      MscPart(symbolsFic, symbolsMsc, w1, w2, j - 1);
    } else {
      FicPart(symbolsFic, symbolsMsc, w1, w2, symbolsFic - 1);
    }
  }

  /**
   * A frame without tags: from the start of a frame, symbols_fic symbols go to
   * the FIC and then symbols_msc to the MSC, and the next frame starts on the FIC.
   */
  lemma FrameCycle(symbolsFic: nat, symbolsMsc: nat, w1: nat, w2: nat)
    requires 0 < symbolsFic && 0 < symbolsMsc
    ensures AfterSymbols(symbolsFic, symbolsMsc, Counters(true, 0, w1, w2), symbolsFic + symbolsMsc)
         == Counters(true, 0, w1 + symbolsFic, w2 + symbolsMsc)
  {
    MscPart(symbolsFic, symbolsMsc, w1, w2, symbolsMsc - 1);
  }

  class Demux {
    const symbolLength: nat
    const symbolsFic: nat
    const symbolsMsc: nat
    const fillval: Complex
    var symbolCount: nat
    var ficSymsWritten: nat
    var mscSymsWritten: nat
    var onFic: bool

    function CountersOf(): Counters
      reads this
    {
      Counters(onFic, symbolCount, ficSymsWritten, mscSymsWritten)
    }

    /** The constructor: a frame starts on the FIC, nothing written yet. */
    constructor (symbolLength: nat, symbolsFic: nat, symbolsMsc: nat, fillval: Complex)
      ensures this.symbolLength == symbolLength && this.symbolsFic == symbolsFic
      ensures this.symbolsMsc == symbolsMsc && this.fillval == fillval
      ensures CountersOf() == Counters(true, 0, 0, 0)
    {
      this.symbolLength, this.symbolsFic, this.symbolsMsc, this.fillval := symbolLength, symbolsFic, symbolsMsc, fillval;
      symbolCount, ficSymsWritten, mscSymsWritten, onFic := 0, 0, 0, true;
    }

    /** forecast: one input item per output item. */
    function Forecast(noutput: nat): nat { noutput }

    /**
     * The state after a tag: the fill loops write the missing symbols of the
     * active channel from element syms_written * symbol_length on.
     */
    function OnTag(s: State): State
    {
      var ficFill := FicFill(symbolsFic, s.c);
      var mscFill := MscFill(symbolsMsc, s.c);
      State(FrameStart(symbolsFic, symbolsMsc, s.c),
            Filled(s.fic, s.c.ficWritten * symbolLength, ficFill * symbolLength, fillval),
            Filled(s.msc, s.c.mscWritten * symbolLength, mscFill * symbolLength, fillval))
    }

    /**
     * The state after routing one symbol, as the block copies it: symbol w of
     * a channel goes to element w on (`&out[syms_written++]`), not to element
     * w * symbol_length where the fill puts it (see CopiesOverlap).
     */
    function OnSymbol(s: State, symbol: seq<Complex>): State
    {
      State(CountSymbol(symbolsFic, symbolsMsc, s.c),
            if s.c.onFic then Copied(s.fic, s.c.ficWritten, symbol) else s.fic,
            if s.c.onFic then s.msc else Copied(s.msc, s.c.mscWritten, symbol))
    }

    /** The state after the first n symbols of a call. */
    function Run(input: seq<Complex>, tags: seq<nat>, s0: State, n: nat): State
      requires n * symbolLength <= |input|
    {
      if n == 0 then s0
      else
        assert (n - 1) * symbolLength + symbolLength == n * symbolLength;
        var s := Run(input, tags, s0, n - 1);
        var t := if SymbolHit(tags, symbolLength, n - 1) then OnTag(s) else s;
        OnSymbol(t, input[(n - 1) * symbolLength..n * symbolLength])
    }

    /** Without tags, a call routes its symbols as the frame rhythm says. */
    lemma {:induction false} UntaggedRun(input: seq<Complex>, tags: seq<nat>, s0: State, n: nat)
      requires n * symbolLength <= |input|
      requires forall i :: 0 <= i < n ==> !SymbolHit(tags, symbolLength, i)
      ensures Run(input, tags, s0, n).c == AfterSymbols(symbolsFic, symbolsMsc, s0.c, n)
    {
      if n > 0 {
        assert (n - 1) * symbolLength <= n * symbolLength;
        UntaggedRun(input, tags, s0, n - 1);
      }
    }

    /**
     * A tag at the start of a frame (state on_fic, count 0: after a complete
     * frame, or at construction) pads a whole FIC part of fill symbols.
     */
    lemma TagAtFrameStartPadsWholeFic(s: State)
      requires s.c.onFic && s.c.count == 0 && 0 < symbolsFic
      ensures OnTag(s).c == Counters(true, 0, s.c.ficWritten + symbolsFic, s.c.mscWritten)
      ensures forall k :: s.c.ficWritten * symbolLength <= k < (s.c.ficWritten + symbolsFic) * symbolLength
                 ==> k in OnTag(s).fic && OnTag(s).fic[k] == fillval
      ensures OnTag(s).msc == s.msc
    {
    }

    /** The copy aligned with the fill: symbol w of a channel goes to element w * symbol_length on. */
    function OnSymbolAligned(s: State, symbol: seq<Complex>): State
    {
      State(CountSymbol(symbolsFic, symbolsMsc, s.c),
            if s.c.onFic then Copied(s.fic, s.c.ficWritten * symbolLength, symbol) else s.fic,
            if s.c.onFic then s.msc else Copied(s.msc, s.c.mscWritten * symbolLength, symbol))
    }

    /**
     * Fill and copies disagree on where a symbol goes: fill for symbol w
     * starts at element w * symbol_length, a copy of symbol w at element w.
     * Two FIC symbols in a row therefore overlap: with symbol_length 2 the
     * second copy overwrites the second sample of the first.
     */
    lemma CopiesOverlap(s: State, a: seq<Complex>, b: seq<Complex>)
      requires s.c.onFic && s.c.count + 2 < symbolsFic && symbolLength == 2
      requires |a| == 2 && |b| == 2
      ensures var r := OnSymbol(OnSymbol(s, a), b);
        r.fic[s.c.ficWritten] == a[0] && r.fic[s.c.ficWritten + 1] == b[0] && r.fic[s.c.ficWritten + 2] == b[1]
    {
    }


    /** With aligned copies two FIC symbols in a row are both kept whole, one after the other. */
    lemma AlignedCopiesKeepBoth(s: State, a: seq<Complex>, b: seq<Complex>)
      requires s.c.onFic && s.c.count + 1 < symbolsFic
      requires |a| == symbolLength && |b| == symbolLength
      ensures var r := OnSymbolAligned(OnSymbolAligned(s, a), b);
        forall k :: 0 <= k < symbolLength ==>
          r.fic[s.c.ficWritten * symbolLength + k] == a[k]
          && r.fic[(s.c.ficWritten + 1) * symbolLength + k] == b[k]
    {
      var w := s.c.ficWritten;
      var first, second := w * symbolLength, (w + 1) * symbolLength;
      NextMultiple(w, symbolLength);
      var r1 := OnSymbolAligned(s, a);
      assert r1.c.onFic && r1.c.ficWritten == w + 1;
      var r := OnSymbolAligned(r1, b);
      assert r.fic == Copied(Copied(s.fic, first, a), second, b);
      forall k | 0 <= k < symbolLength
        ensures OnSymbolAligned(OnSymbolAligned(s, a), b).fic[s.c.ficWritten * symbolLength + k] == a[k]
        ensures OnSymbolAligned(OnSymbolAligned(s, a), b).fic[(s.c.ficWritten + 1) * symbolLength + k] == b[k]
      {
        AdjacentCopies(s.fic, first, second, a, b, k);
      }
    }

    /**
     * The written counters are never reset between calls: a call leaves them
     * at least where it found them, and every element it writes lies at or
     * past the counter it started from, so a later call writes from there on
     * rather than from the start of its own output, and its produced counts
     * (the counters times symbol_length) include what earlier calls wrote.
     */
    lemma {:induction false} CountersCarryOver(input: seq<Complex>, tags: seq<nat>, s0: State, n: nat)
      requires n * symbolLength <= |input|
      ensures var r := Run(input, tags, s0, n);
        && s0.c.ficWritten <= r.c.ficWritten && s0.c.mscWritten <= r.c.mscWritten
        && (forall k :: k in r.fic && k < s0.c.ficWritten ==> k in s0.fic && r.fic[k] == s0.fic[k])
        && (forall k :: k in r.msc && k < s0.c.mscWritten ==> k in s0.msc && r.msc[k] == s0.msc[k])
    {
      if n > 0 {
        assert (n - 1) * symbolLength <= n * symbolLength;
        CountersCarryOver(input, tags, s0, n - 1);
        var s := Run(input, tags, s0, n - 1);
        var t := if SymbolHit(tags, symbolLength, n - 1) then OnTag(s) else s;
        ProductGrows(s.c.ficWritten, symbolLength);
        ProductGrows(s.c.mscWritten, symbolLength);
        assert s.c.ficWritten <= t.c.ficWritten && s.c.mscWritten <= t.c.mscWritten;
      }
    }

    /**
     * A call's counters are those of the same call started from zero written
     * symbols, plus the ones it started from.
     */
    lemma {:induction false} CountersShift(input: seq<Complex>, tags: seq<nat>, s0: State, s1: State, n: nat)
      requires n * symbolLength <= |input|
      requires s1.c == s0.c.(ficWritten := 0, mscWritten := 0)
      ensures var r0, r1 := Run(input, tags, s0, n).c, Run(input, tags, s1, n).c;
        r0 == r1.(ficWritten := r1.ficWritten + s0.c.ficWritten, mscWritten := r1.mscWritten + s0.c.mscWritten)
    {
      if n > 0 {
        assert (n - 1) * symbolLength <= n * symbolLength;
        CountersShift(input, tags, s0, s1, n - 1);
      }
    }

    /**
     * The block's state at the start of a call with the counters reset, as
     * d_nwritten is in the synchronisers: nothing of this call's output
     * written yet.
     */
    function CallStart(c: Counters): State
    {
      State(c.(ficWritten := 0, mscWritten := 0), map[], map[])
    }

    /**
     * With the counters reset at every call, the produced counts are what
     * this call wrote: the counters exceed those of the block as written by
     * exactly the symbols earlier calls wrote, and every element the call
     * writes lies below its produced count.
     */
    lemma {:induction false} PerCallWritesFit(input: seq<Complex>, tags: seq<nat>, s0: State, n: nat)
      requires 0 < symbolLength && n * symbolLength <= |input|
      ensures var r, a := Run(input, tags, CallStart(s0.c), n), Run(input, tags, s0, n);
        && a.c.ficWritten == r.c.ficWritten + s0.c.ficWritten
        && a.c.mscWritten == r.c.mscWritten + s0.c.mscWritten
        && (forall k :: k in r.fic ==> k < r.c.ficWritten * symbolLength)
        && (forall k :: k in r.msc ==> k < r.c.mscWritten * symbolLength)
    {
      CountersShift(input, tags, s0, CallStart(s0.c), n);
      WritesBelowCounters(input, tags, CallStart(s0.c), n);
    }

    /** Every element written lies below the produced counts, the counters times symbol_length. */
    predicate WrittenBelow(s: State)
    {
      && (forall k :: k in s.fic ==> k < s.c.ficWritten * symbolLength)
      && (forall k :: k in s.msc ==> k < s.c.mscWritten * symbolLength)
    }

    /** The fill of a tag stays below the counts it raises. */
    lemma OnTagBelow(s: State)
      requires WrittenBelow(s)
      ensures WrittenBelow(OnTag(s))
    {
      FillBelow(s.c.ficWritten, FicFill(symbolsFic, s.c), symbolLength);
      FillBelow(s.c.mscWritten, MscFill(symbolsMsc, s.c), symbolLength);
      ProductGrows(s.c.ficWritten, symbolLength);
      ProductGrows(s.c.mscWritten, symbolLength);
    }

    /** A copy at element syms_written stays below the count it raises. */
    lemma OnSymbolBelow(s: State, symbol: seq<Complex>)
      requires 0 < symbolLength && |symbol| == symbolLength && WrittenBelow(s)
      ensures WrittenBelow(OnSymbol(s, symbol))
    {
      CopyBelow(s.c.ficWritten, symbolLength);
      CopyBelow(s.c.mscWritten, symbolLength);
      ProductGrows(s.c.ficWritten, symbolLength);
      ProductGrows(s.c.mscWritten, symbolLength);
    }

    /** From a state whose written elements lie below its counts, a call keeps them there. */
    lemma {:induction false} WritesBelowCounters(input: seq<Complex>, tags: seq<nat>, s0: State, n: nat)
      requires 0 < symbolLength && n * symbolLength <= |input| && WrittenBelow(s0)
      ensures WrittenBelow(Run(input, tags, s0, n))
    {
      if n > 0 {
        assert (n - 1) * symbolLength + symbolLength == n * symbolLength;
        WritesBelowCounters(input, tags, s0, n - 1);
        var s := Run(input, tags, s0, n - 1);
        if SymbolHit(tags, symbolLength, n - 1) {
          OnTagBelow(s);
        }
        var t := if SymbolHit(tags, symbolLength, n - 1) then OnTag(s) else s;
        OnSymbolBelow(t, input[(n - 1) * symbolLength..n * symbolLength]);
      }
    }

    /**
     * general_work: every whole symbol of the input is routed; all input is
     * consumed, and the produced counts are the cumulative symbol counters
     * times symbol_length.
     */
    method GeneralWork(input: seq<Complex>, tags: seq<nat>, noutput: nat, ficIn: Memory, mscIn: Memory)
      returns (fic: Memory, msc: Memory, consumed: nat, producedFic: nat, producedMsc: nat)
      requires 0 < symbolLength && |input| >= Forecast(noutput)
      modifies this
      ensures State(CountersOf(), fic, msc)
           == Run(input, tags, State(old(CountersOf()), ficIn, mscIn), noutput / symbolLength)
      ensures consumed == noutput
      ensures producedFic == ficSymsWritten * symbolLength && producedMsc == mscSymsWritten * symbolLength
    {
      ghost var s0 := State(CountersOf(), ficIn, mscIn);
      fic, msc := ficIn, mscIn;
      var tagCount := 0;
      var i := 0;
      while i < noutput / symbolLength
        invariant 0 <= i <= noutput / symbolLength
        invariant i * symbolLength <= |input|
        invariant tagCount == SymbolCursor(tags, symbolLength, i)
        invariant State(CountersOf(), fic, msc) == Run(input, tags, s0, i)
      {
        DivBound(noutput, symbolLength, i);
        tagCount, fic, msc := ProcessSymbol(input, tags, s0, i, tagCount, fic, msc);
        i := i + 1;
      }
      consumed := noutput;
      ProductSign(ficSymsWritten, symbolLength);
      ProductSign(mscSymsWritten, symbolLength);
      producedFic := ficSymsWritten * symbolLength;
      producedMsc := mscSymsWritten * symbolLength;
    }

    /** One iteration of the loop of general_work: symbol i. */
    method ProcessSymbol(input: seq<Complex>, tags: seq<nat>, ghost s0: State, i: nat, tagCount: nat,
                         ficIn: Memory, mscIn: Memory)
      returns (tagCount': nat, fic: Memory, msc: Memory)
      requires (i + 1) * symbolLength <= |input|
      requires tagCount == SymbolCursor(tags, symbolLength, i)
      requires State(CountersOf(), ficIn, mscIn) == Run(input, tags, s0, i)
      modifies this
      ensures tagCount' == SymbolCursor(tags, symbolLength, i + 1)
      ensures State(CountersOf(), fic, msc) == Run(input, tags, s0, i + 1)
    {
      tagCount', fic, msc := tagCount, ficIn, mscIn;
      if tagCount < |tags| && tags[tagCount] == i * symbolLength {
        tagCount' := tagCount + 1;
        fic, msc := StartFrame(fic, msc);
      }
      fic, msc := RouteSymbol(input[i * symbolLength..(i + 1) * symbolLength], fic, msc);
    }

    /** The tag branch: pad the active channel with fill values, then start a frame on the FIC. */
    method StartFrame(ficIn: Memory, mscIn: Memory) returns (fic: Memory, msc: Memory)
      modifies this
      ensures State(CountersOf(), fic, msc) == OnTag(State(old(CountersOf()), ficIn, mscIn))
    {
      fic := PadFic(ficIn);
      msc := PadMsc(mscIn);
      symbolCount := 0;
      onFic := true;
    }

    /** While on the FIC with symbols missing, the FIC is padded with fill values to its quota. */
    method PadFic(ficIn: Memory) returns (fic: Memory)
      modifies this`ficSymsWritten
      ensures fic == Filled(ficIn, old(ficSymsWritten) * symbolLength, FicFill(symbolsFic, old(CountersOf())) * symbolLength, fillval)
      ensures ficSymsWritten == old(ficSymsWritten) + FicFill(symbolsFic, old(CountersOf()))
    {
      ProductNonNegative(ficSymsWritten, symbolLength);
      if onFic && symbolCount < symbolsFic {
        ProductNonNegative(symbolsFic - symbolCount, symbolLength);
        fic := Fill(ficIn, ficSymsWritten * symbolLength, (symbolsFic - symbolCount) * symbolLength);
        ficSymsWritten := ficSymsWritten + (symbolsFic - symbolCount);
      } else {
        fic := ficIn;
        FilledNothing(fic, ficSymsWritten * symbolLength, fillval);
      }
    }

    /** While on the MSC with symbols missing, the MSC is padded with fill values to its quota. */
    method PadMsc(mscIn: Memory) returns (msc: Memory)
      modifies this`mscSymsWritten
      ensures msc == Filled(mscIn, old(mscSymsWritten) * symbolLength, MscFill(symbolsMsc, old(CountersOf())) * symbolLength, fillval)
      ensures mscSymsWritten == old(mscSymsWritten) + MscFill(symbolsMsc, old(CountersOf()))
    {
      ProductNonNegative(mscSymsWritten, symbolLength);
      if !onFic && symbolCount < symbolsMsc {
        ProductNonNegative(symbolsMsc - symbolCount, symbolLength);
        msc := Fill(mscIn, mscSymsWritten * symbolLength, (symbolsMsc - symbolCount) * symbolLength);
        mscSymsWritten := mscSymsWritten + (symbolsMsc - symbolCount);
      } else {
        msc := mscIn;
        FilledNothing(msc, mscSymsWritten * symbolLength, fillval);
      }
    }

    /** A fill loop: len elements from start on get the fill value. */
    method Fill(buf: Memory, start: nat, len: nat) returns (r: Memory)
      ensures r == Filled(buf, start, len, fillval)
    {
      r := buf;
      var j := 0;
      while j < len
        invariant 0 <= j <= len
        invariant r == Filled(buf, start, j, fillval)
      {
        r := r[start + j := fillval];
        j := j + 1;
      }
    }

    /** The copy branch: the symbol goes to the active channel at element syms_written. */
    method RouteSymbol(symbol: seq<Complex>, ficIn: Memory, mscIn: Memory) returns (fic: Memory, msc: Memory)
      modifies this
      ensures State(CountersOf(), fic, msc) == OnSymbol(State(old(CountersOf()), ficIn, mscIn), symbol)
    {
      fic, msc := ficIn, mscIn;
      if onFic {
        fic := Copied(fic, ficSymsWritten, symbol);
        ficSymsWritten := ficSymsWritten + 1;
        symbolCount := symbolCount + 1;
        if symbolCount >= symbolsFic {
          onFic := false;
          symbolCount := 0;
        }
      } else {
        msc := Copied(msc, mscSymsWritten, symbol);
        mscSymsWritten := mscSymsWritten + 1;
        symbolCount := symbolCount + 1;
        if symbolCount >= symbolsMsc {
          onFic := true;
          symbolCount := 0;
        }
      }
    }
  }

  /** A count of symbols in elements is at least the count. */
  lemma ProductGrows(w: nat, d: nat)
    ensures 0 < d ==> w <= w * d
    ensures w * d <= (w + 1) * d
  {
  }

  /** Fill symbols w .. w + f end at the elements of w + f symbols. */
  lemma FillBelow(w: nat, f: nat, d: nat)
    ensures w * d + f * d == (w + f) * d
  {
  }

  /** A symbol copied at element w ends within the elements of w + 1 symbols. */
  lemma CopyBelow(w: nat, d: nat)
    requires 0 < d
    ensures w + d <= (w + 1) * d
  {
  }

  /** A product of naturals is a natural. */
  lemma ProductNonNegative(a: nat, b: nat)
    ensures a * b >= 0
  {
  }

  /** The symbol after the i-th whole one still fits in the input. */
  lemma DivBound(n: nat, d: nat, i: nat)
    requires 0 < d && i < n / d
    ensures (i + 1) * d <= n
  {
    assert (i + 1) * d <= (n / d) * d;
  }
}
