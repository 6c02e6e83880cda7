// Which columns of a decoded spreadsheet hold the matricula, the amount and,
// optionally, the event, the name and the CPF
// (src/core/prefeitura/connectors/sheet/detectSheetColumns.ts). One pass
// tallies, per column, how many cells look like each kind of value; the
// roles are then chosen by maximum counts, with earlier choices blocked by
// -1 sentinels. Ratios are compared exactly: `hits / rows >= 0.7` is
// `10 * hits >= 7 * rows`.

module SheetColumns {
  import opened Domain
  import opened Text

  /** A cell of the decoded grid: text, a number (held as the text
      JavaScript's `String` gives for it), null, or the `undefined` read
      past the end of a short row. */
  datatype Cell = Str(s: string) | Num(shown: string) | Null | Undefined

  /** `String(cell)`. */
  function Render(c: Cell): string {
    match c
    case Str(s) => s
    case Num(shown) => shown
    case Null => "null"
    case Undefined => "undefined"
  }

  /** The cell readers whose code is not part of this model:
      `parseCellAsMatricula`, `parseCellAsMonetary` (an amount in cents)
      and `cellLooksCpf`. */
  datatype CellParsers = CellParsers(
    matricula: Cell -> Option<string>,
    monetary: Cell -> Option<int>,
    looksCpf: Cell -> bool)

  /** The class `[A-Za-zÀ-ÿ\s]`. */
  predicate IsNameChar(c: char) {
    ('A' <= c <= 'Z') || ('a' <= c <= 'z') || ('\U{00C0}' <= c <= '\U{00FF}') || IsSpace(c)
  }

  /** `/^[A-Za-zÀ-ÿ\s]+$/`. */
  predicate NameText(s: string) {
    |s| >= 1 && forall i :: 0 <= i < |s| ==> IsNameChar(s[i])
  }

  /** `/^\d{1,3}$/`. */
  predicate ShortCode(s: string) {
    1 <= |s| <= 3 && AllDigits(s)
  }

  /** A text cell that reads as a person's name: at least five characters
      once trimmed, letters and spaces only, and a space among them. */
  predicate LooksNome(c: Cell) {
    c.Str? && var t := Trim(c.s); |t| >= 5 && NameText(t) && ' ' in t
  }

  /** A text or number cell that reads as a short event code. */
  predicate LooksEvento(c: Cell) {
    (c.Str? || c.Num?) && ShortCode(Trim(Render(c)))
  }

  /** The five tests a cell goes through while counting. */
  datatype CellTests = CellTests(
    matricula: Cell -> Option<string>,
    monetary: Cell -> Option<int>,
    looksCpf: Cell -> bool,
    looksNome: Cell -> bool,
    looksEvento: Cell -> bool)

  /** The tests of the sheet detector: the given cell readers, and the name
      and event tests above. */
  function SheetTests(p: CellParsers): (q: CellTests)
    ensures q.matricula == p.matricula
  {
    CellTests(p.matricula, p.monetary, p.looksCpf, LooksNome, LooksEvento)
  }

  /** The per-column tables of the source, one record per column: hits of
      matricula, amount (with the sum of the amounts), event, CPF and name. */
  datatype Tally = Tally(matricula: int, valor: int, sum: int, evento: int, cpf: int, nome: int)

  const Zero: Tally := Tally(0, 0, 0, 0, 0, 0)

  /** A column's tally after one more cell: each kind of hit counts one at
      most, and only a non-negative amount counts and adds to the sum. */
  function Count(q: CellTests, t: Tally, c: Cell): (t': Tally)
    ensures t'.matricula - t.matricula == (if q.matricula(c).Some? then 1 else 0)
    ensures t'.cpf - t.cpf == (if q.looksCpf(c) then 1 else 0)
    ensures t'.nome - t.nome == (if q.looksNome(c) then 1 else 0)
    ensures t'.evento - t.evento == (if q.looksEvento(c) then 1 else 0)
    ensures var v := q.monetary(c);
      && t'.valor - t.valor == (if v.Some? && v.value >= 0 then 1 else 0)
      && t'.sum - t.sum == (if v.Some? && v.value >= 0 then v.value else 0)
  {
    var v := q.monetary(c);
    var ok := v.Some? && v.value >= 0;
    Tally(t.matricula + (if q.matricula(c).Some? then 1 else 0),
          t.valor + (if ok then 1 else 0),
          t.sum + (if ok then v.value else 0),
          t.evento + (if q.looksEvento(c) then 1 else 0),
          t.cpf + (if q.looksCpf(c) then 1 else 0),
          t.nome + (if q.looksNome(c) then 1 else 0))
  }

  /** The tally of column `col` over the first `n` rows; a row too short to
      have the column adds nothing. */
  function ColumnTally(q: CellTests, rows: seq<seq<Cell>>, n: nat, col: nat): Tally
    requires n <= |rows|
  {
    if n == 0 then Zero
    else
      var t := ColumnTally(q, rows, n - 1, col);
      if col < |rows[n - 1]| then Count(q, t, rows[n - 1][col]) else t
  }

  /** Every hit counter lies between 0 and the number of rows counted, and
      the sum of amounts is never negative. */
  lemma {:induction false} TallyBounds(q: CellTests, rows: seq<seq<Cell>>, n: nat, col: nat)
    requires n <= |rows|
    ensures var t := ColumnTally(q, rows, n, col);
      && 0 <= t.matricula <= n && 0 <= t.valor <= n && 0 <= t.evento <= n
      && 0 <= t.cpf <= n && 0 <= t.nome <= n && t.sum >= 0
  {
    if n > 0 {
      TallyBounds(q, rows, n - 1, col);
    }
  }

  /** A column has no matricula hit exactly when none of its cells is read
      as a matricula. */
  lemma {:induction false} NoMatriculaHits(q: CellTests, rows: seq<seq<Cell>>, n: nat, col: nat)
    requires n <= |rows|
    ensures ColumnTally(q, rows, n, col).matricula == 0
      <==> forall k :: 0 <= k < n && col < |rows[k]| ==> q.matricula(rows[k][col]).None?
  {
    if n > 0 {
      NoMatriculaHits(q, rows, n - 1, col);
      TallyBounds(q, rows, n - 1, col);
    }
  }

  /** `Math.max(...rows.map(r => r.length))`, 0 for no rows. */
  function MaxLen(rows: seq<seq<Cell>>): (m: nat)
    ensures forall k :: 0 <= k < |rows| ==> |rows[k]| <= m
    ensures rows != [] ==> exists k :: 0 <= k < |rows| && |rows[k]| == m
  {
    if rows == [] then 0
    else
      var m := MaxLen(rows[..|rows| - 1]);
      var l := |rows[|rows| - 1]|;
      assert forall k :: 0 <= k < |rows| - 1 ==> rows[k] == rows[..|rows| - 1][k];
      if l > m then l else m
  }

  // ---------------------------------------------------------------------------
  // Choosing the columns

  function MatriculaHits(ts: seq<Tally>): (a: seq<int>)
    ensures |a| == |ts| && forall i :: 0 <= i < |ts| ==> a[i] == ts[i].matricula
  {
    seq(|ts|, i requires 0 <= i < |ts| => ts[i].matricula)
  }

  function EventoHits(ts: seq<Tally>): (a: seq<int>)
    ensures |a| == |ts| && forall i :: 0 <= i < |ts| ==> a[i] == ts[i].evento
  {
    seq(|ts|, i requires 0 <= i < |ts| => ts[i].evento)
  }

  function NomeHits(ts: seq<Tally>): (a: seq<int>)
    ensures |a| == |ts| && forall i :: 0 <= i < |ts| ==> a[i] == ts[i].nome
  {
    seq(|ts|, i requires 0 <= i < |ts| => ts[i].nome)
  }

  function CpfHits(ts: seq<Tally>): (a: seq<int>)
    ensures |a| == |ts| && forall i :: 0 <= i < |ts| ==> a[i] == ts[i].cpf
  {
    seq(|ts|, i requires 0 <= i < |ts| => ts[i].cpf)
  }

  /** The first index holding the maximum of `a`. */
  function FirstMax(a: seq<int>): (m: nat)
    requires |a| >= 1
    ensures m < |a|
    ensures forall i :: 0 <= i < |a| ==> a[i] <= a[m]
    ensures forall i :: 0 <= i < m ==> a[i] < a[m]
  {
    if |a| == 1 then 0
    else
      var m := FirstMax(a[..|a| - 1]);
      assert forall i :: 0 <= i < |a| - 1 ==> a[i] == a[..|a| - 1][i];
      if a[|a| - 1] > a[m] then |a| - 1 else m
  }

  /** `indexOfMax(arr)`: a scan that moves only on a strictly larger value. */
  method IndexOfMax(a: seq<int>) returns (maxIndex: nat)
    requires |a| >= 1
    ensures maxIndex == FirstMax(a)
  {
    maxIndex := 0;
    var maxValue := a[0];
    assert a[..1] == [a[0]];
    for i := 1 to |a|
      invariant maxIndex == FirstMax(a[..i]) && maxValue == a[maxIndex]
    {
      assert a[..i + 1][..i] == a[..i];
      if a[i] > maxValue {
        maxValue := a[i];
        maxIndex := i;
      }
    }
    assert a[..|a|] == a;
  }

  /** A column that may hold amounts: its index, amount hits and sum. */
  datatype Candidate = Candidate(col: nat, hits: int, sum: int)

  /** The amount columns, in column order: those whose amount hits, after
      the exclusions, are positive. */
  function Candidates(ts: seq<Tally>): (cs: seq<Candidate>)
    ensures forall i :: 0 <= i < |cs| ==>
      cs[i].col < |ts| && ts[cs[i].col].valor > 0
      && cs[i].hits == ts[cs[i].col].valor && cs[i].sum == ts[cs[i].col].sum
  {
    if ts == [] then []
    else
      var init := ts[..|ts| - 1];
      var last := ts[|ts| - 1];
      assert forall col :: 0 <= col < |init| ==> init[col] == ts[col];
      Candidates(init) + (if last.valor > 0 then [Candidate(|ts| - 1, last.valor, last.sum)] else [])
  }

  /** Candidates in strictly increasing column order. */
  predicate Increasing(cs: seq<Candidate>) {
    forall i, j :: 0 <= i < j < |cs| ==> cs[i].col < cs[j].col
  }

  /** The candidates come in increasing column order. */
  lemma {:induction false} CandidatesIncreasing(ts: seq<Tally>)
    ensures Increasing(Candidates(ts))
  {
    if ts != [] {
      var init := ts[..|ts| - 1];
      CandidatesIncreasing(init);
      var cs := Candidates(init);
      var last := ts[|ts| - 1];
      var r := Candidates(ts);
      assert r == cs + (if last.valor > 0 then [Candidate(|ts| - 1, last.valor, last.sum)] else []);
      forall i, j | 0 <= i < j < |r|
        ensures r[i].col < r[j].col
      {
        assert r[i] == cs[i];
        if j < |cs| {
          assert r[j] == cs[j];
        } else {
          assert cs[i].col < |init|;
        }
      }
    }
  }

  /** A column with positive amount hits is among the candidates. */
  lemma {:induction false} CandidateFor(ts: seq<Tally>, col: nat)
    requires col < |ts| && ts[col].valor > 0
    ensures exists i :: 0 <= i < |Candidates(ts)| && Candidates(ts)[i].col == col
  {
    var init := ts[..|ts| - 1];
    var cs := Candidates(init);
    var last := ts[|ts| - 1];
    assert Candidates(ts) == cs + (if last.valor > 0 then [Candidate(|ts| - 1, last.valor, last.sum)] else []);
    if col == |ts| - 1 {
      assert Candidates(ts)[|cs|].col == col;
    } else {
      assert init[col] == ts[col];
      CandidateFor(init, col);
      var i :| 0 <= i < |cs| && cs[i].col == col;
      assert Candidates(ts)[i] == cs[i];
    }
  }

  /** Every column with positive amount hits is a candidate, once, in
      column order. */
  lemma CandidatesComplete(ts: seq<Tally>)
    ensures var cs := Candidates(ts);
      && Increasing(cs)
      && forall col :: 0 <= col < |ts| && ts[col].valor > 0 ==>
           exists i :: 0 <= i < |cs| && cs[i].col == col
  {
    CandidatesIncreasing(ts);
    forall col | 0 <= col < |ts| && ts[col].valor > 0
      ensures exists i :: 0 <= i < |Candidates(ts)| && Candidates(ts)[i].col == col
    {
      CandidateFor(ts, col);
    }
  }

  /** `a` sorts before `b`: the larger sum first, then the more hits. */
  predicate Before(a: Candidate, b: Candidate) {
    a.sum > b.sum || (a.sum == b.sum && a.hits > b.hits)
  }

  /** The candidate the sort puts first. The sort is stable, so among the
      candidates no other sorts before, it is the earliest. */
  function FirstBest(cs: seq<Candidate>): (k: nat)
    requires |cs| >= 1
    ensures k < |cs|
    ensures forall i :: 0 <= i < |cs| ==> !Before(cs[i], cs[k])
    ensures forall i :: 0 <= i < k ==> Before(cs[k], cs[i])
  {
    if |cs| == 1 then 0
    else
      var k := FirstBest(cs[..|cs| - 1]);
      assert forall i :: 0 <= i < |cs| - 1 ==> cs[i] == cs[..|cs| - 1][i];
      if Before(cs[|cs| - 1], cs[k]) then |cs| - 1 else k
  }

  /** The selection of the sorted candidate list's first element. */
  method BestCandidate(cs: seq<Candidate>) returns (k: nat)
    requires |cs| >= 1
    ensures k == FirstBest(cs)
  {
    k := 0;
    assert cs[..1] == [cs[0]];
    for i := 1 to |cs|
      invariant k == FirstBest(cs[..i])
    {
      assert cs[..i + 1][..i] == cs[..i];
      if Before(cs[i], cs[k]) {
        k := i;
      }
    }
    assert cs[..|cs|] == cs;
  }

  /** The CPF threshold: `hits >= rows * 0.3`. */
  predicate CpfLike(t: Tally, total: nat) {
    10 * t.cpf >= 3 * total
  }

  /** Amount hits and sums set to -1 for the matricula column and for every
      column that looks like a CPF column. */
  function ExcludeValor(ts: seq<Tally>, mCol: nat, total: nat): (ts': seq<Tally>)
    ensures |ts'| == |ts|
  {
    seq(|ts|, c requires 0 <= c < |ts| =>
      if c == mCol || CpfLike(ts[c], total) then ts[c].(valor := -1, sum := -1) else ts[c])
  }

  /** The exclusions touch only the amount hits and sums. */
  lemma ExcludeValorKeepsOthers(ts: seq<Tally>, mCol: nat, total: nat)
    ensures var ts' := ExcludeValor(ts, mCol, total);
      && MatriculaHits(ts') == MatriculaHits(ts) && EventoHits(ts') == EventoHits(ts)
      && NomeHits(ts') == NomeHits(ts) && CpfHits(ts') == CpfHits(ts)
  {
    var ts' := ExcludeValor(ts, mCol, total);
    assert MatriculaHits(ts') == MatriculaHits(ts);
    assert EventoHits(ts') == EventoHits(ts);
    assert NomeHits(ts') == NomeHits(ts);
    assert CpfHits(ts') == CpfHits(ts);
  }

  /** The confidence tier of a detection. */
  function Tier(mCount: int, vCount: int, total: nat): Confidence {
    if 10 * mCount >= 7 * total && 10 * vCount >= 7 * total then High
    else if 10 * mCount >= 4 * total && 10 * vCount >= 4 * total then Medium
    else Low
  }

  /** The column roles `detectSheetColumns` reports. */
  datatype Detection = Detection(
    matriculaCol: nat,
    valorCol: nat,
    eventoCol: Option<nat>,
    nomeCol: Option<nat>,
    cpfCol: Option<nat>,
    confidence: Confidence)

  /** The optional roles. */
  datatype Optionals = Optionals(eventoCol: Option<nat>, nomeCol: Option<nat>, cpfCol: Option<nat>)

  /** The optional roles chosen from the event, name and CPF hits once the
      matricula column `mCol` and the amount column `vCol` are known. Each
      choice blocks its column for the later ones with a -1; a name column
      is blocked for the CPF choice as soon as it has a hit, even when it is
      not reported. */
  function PickOptional(ev: seq<int>, nm: seq<int>, cp: seq<int>, mCol: nat, vCol: nat, total: nat): Optionals
    requires |ev| == |nm| == |cp| && mCol < |ev| && vCol < |ev|
  {
    var (eCol, eCount) := PickEvento(ev, mCol, vCol);
    var (nCol, nCount) := PickNome(nm, mCol, vCol, eCol, eCount);
    var (cCol, cCount) := PickCpf(cp, mCol, vCol, eCol, eCount, nCol, nCount);
    Optionals(
      if eCount > 0 then Some(eCol) else None,
      if 10 * nCount > 3 * total then Some(nCol) else None,
      if 10 * cCount > 3 * total then Some(cCol) else None)
  }

  /** The event column and its count, the matricula and amount columns
      blocked. */
  function PickEvento(ev: seq<int>, mCol: nat, vCol: nat): (nat, int)
    requires mCol < |ev| && vCol < |ev|
  {
    var a := ev[mCol := -1][vCol := -1];
    (FirstMax(a), a[FirstMax(a)])
  }

  /** The name column and its count, the event column also blocked when it
      has hits. */
  function PickNome(nm: seq<int>, mCol: nat, vCol: nat, eCol: nat, eCount: int): (nat, int)
    requires mCol < |nm| && vCol < |nm| && eCol < |nm|
  {
    var a := nm[mCol := -1][vCol := -1];
    var a := if eCount > 0 then a[eCol := -1] else a;
    (FirstMax(a), a[FirstMax(a)])
  }

  /** The CPF column and its count, the name column also blocked when it
      has hits. */
  function PickCpf(cp: seq<int>, mCol: nat, vCol: nat, eCol: nat, eCount: int, nCol: nat, nCount: int): (nat, int)
    requires mCol < |cp| && vCol < |cp| && eCol < |cp| && nCol < |cp|
  {
    var a := cp[mCol := -1][vCol := -1];
    var a := if eCount > 0 then a[eCol := -1] else a;
    var a := if nCount > 0 then a[nCol := -1] else a;
    (FirstMax(a), a[FirstMax(a)])
  }

  /** The two required roles: the matricula column and the best amount
      candidate, or None when either is missing. */
  function MainRoles(ts: seq<Tally>, total: nat): (r: Option<(nat, Candidate)>)
    requires |ts| >= 1
    ensures r.Some? ==> r.value.0 < |ts| && r.value.1.col < |ts|
  {
    var mCol := FirstMax(MatriculaHits(ts));
    if ts[mCol].matricula == 0 then None
    else
      var cs := Candidates(ExcludeValor(ts, mCol, total));
      if cs == [] then None
      else Some((mCol, cs[FirstBest(cs)]))
  }

  /** The choices made from the tallies `ts` of `total` rows. */
  function Choose(ts: seq<Tally>, total: nat): Option<Detection>
    requires |ts| >= 1
  {
    var r := MainRoles(ts, total);
    if r.None? then None
    else
      var (mCol, best) := r.value;
      var o := PickOptional(EventoHits(ts), NomeHits(ts), CpfHits(ts), mCol, best.col, total);
      Some(Detection(mCol, best.col, o.eventoCol, o.nomeCol, o.cpfCol, Tier(ts[mCol].matricula, best.hits, total)))
  }

  /** The tallies of every column over all rows. */
  function Tallies(q: CellTests, rows: seq<seq<Cell>>, maxCols: nat): (ts: seq<Tally>)
    ensures |ts| == maxCols
  {
    seq(maxCols, c requires 0 <= c < maxCols => ColumnTally(q, rows, |rows|, c))
  }

  /** What `detectSheetColumns(rows)` returns. */
  function Detect(p: CellParsers, rows: seq<seq<Cell>>): Option<Detection> {
    if rows == [] || MaxLen(rows) == 0 then None
    else Choose(Tallies(SheetTests(p), rows, MaxLen(rows)), |rows|)
  }

  // ---------------------------------------------------------------------------
  // Properties of the choice

  /** A column that may hold the amounts: not the matricula column, not
      CPF-like, with a non-negative amount. */
  predicate Eligible(ts: seq<Tally>, mCol: nat, total: nat, c: nat)
    requires c < |ts|
  {
    c != mCol && !CpfLike(ts[c], total) && ts[c].valor > 0
  }

  /** Hit counts as counting produces them: never negative. */
  predicate Counted(ts: seq<Tally>) {
    forall c :: 0 <= c < |ts| ==> ts[c].matricula >= 0
  }

  /** No column has a matricula hit. */
  predicate NoMatricula(ts: seq<Tally>) {
    forall c :: 0 <= c < |ts| ==> ts[c].matricula == 0
  }

  /** No column is eligible for the amounts. */
  predicate NoneEligible(ts: seq<Tally>, mCol: nat, total: nat) {
    forall c :: 0 <= c < |ts| ==> !Eligible(ts, mCol, total, c)
  }

  /** The candidate list is empty exactly when no column is eligible. */
  lemma CandidatesEmpty(ts: seq<Tally>, mCol: nat, total: nat)
    ensures Candidates(ExcludeValor(ts, mCol, total)) == [] <==> NoneEligible(ts, mCol, total)
  {
    var ex := ExcludeValor(ts, mCol, total);
    var cs := Candidates(ex);
    CandidatesComplete(ex);
    if cs == [] {
      forall c | 0 <= c < |ts|
        ensures !Eligible(ts, mCol, total, c)
      {
        EligibleCandidate(ts, mCol, total, c);
      }
    } else {
      EligibleCandidate(ts, mCol, total, cs[0].col);
    }
  }

  /** With counts that are never negative, the first maximum is zero
      exactly when no column has a matricula hit. */
  lemma FirstMaxZero(ts: seq<Tally>)
    requires |ts| >= 1 && Counted(ts)
    ensures ts[FirstMax(MatriculaHits(ts))].matricula == 0 <==> NoMatricula(ts)
  {
    var hits := MatriculaHits(ts);
    var mCol := FirstMax(hits);
    if ts[mCol].matricula == 0 {
      forall c | 0 <= c < |ts|
        ensures ts[c].matricula == 0
      {
        assert hits[c] <= hits[mCol];
      }
    }
  }

  /** The required roles are missing exactly when no column has a
      matricula hit, or no column is eligible for the amounts. */
  lemma MainRolesNone(ts: seq<Tally>, total: nat)
    requires |ts| >= 1 && Counted(ts)
    ensures MainRoles(ts, total).None?
      <==> NoMatricula(ts) || NoneEligible(ts, FirstMax(MatriculaHits(ts)), total)
  {
    FirstMaxZero(ts);
    CandidatesEmpty(ts, FirstMax(MatriculaHits(ts)), total);
  }

  /** No detection exactly when no column has a matricula hit, or no column
      is eligible for the amounts. */
  lemma ChooseNone(ts: seq<Tally>, total: nat)
    requires |ts| >= 1 && Counted(ts)
    ensures Choose(ts, total).None?
      <==> NoMatricula(ts) || NoneEligible(ts, FirstMax(MatriculaHits(ts)), total)
  {
    MainRolesNone(ts, total);
  }

  /** After the exclusions, a column keeps positive amount hits exactly when
      it is eligible. */
  lemma EligibleCandidate(ts: seq<Tally>, mCol: nat, total: nat, c: nat)
    requires c < |ts|
    ensures ExcludeValor(ts, mCol, total)[c].valor > 0 <==> Eligible(ts, mCol, total, c)
    ensures ExcludeValor(ts, mCol, total)[c].valor > 0 ==> ExcludeValor(ts, mCol, total)[c] == ts[c]
  {
  }

  /** The candidate record of column `c`. */
  function CandidateOf(ts: seq<Tally>, c: nat): Candidate
    requires c < |ts|
  {
    Candidate(c, ts[c].valor, ts[c].sum)
  }

  /** `v` is the column the sort puts first among the eligible ones: no
      eligible column sorts before it, and the earlier eligible columns all
      sort after it. */
  predicate BestEligible(ts: seq<Tally>, m: nat, total: nat, v: nat)
    requires v < |ts|
  {
    && Eligible(ts, m, total, v)
    && (forall c :: 0 <= c < |ts| && Eligible(ts, m, total, c) ==> !Before(CandidateOf(ts, c), CandidateOf(ts, v)))
    && (forall c :: 0 <= c < v && Eligible(ts, m, total, c) ==> Before(CandidateOf(ts, v), CandidateOf(ts, c)))
  }

  /** The matricula column is the first with the most matricula hits, and
      has at least one. */
  lemma MatriculaRole(ts: seq<Tally>, total: nat)
    requires |ts| >= 1 && MainRoles(ts, total).Some?
    ensures var m := MainRoles(ts, total).value.0;
      && m == FirstMax(MatriculaHits(ts)) && ts[m].matricula != 0
      && (forall c :: 0 <= c < |ts| ==> ts[c].matricula <= ts[m].matricula)
      && (forall c :: 0 <= c < m ==> ts[c].matricula < ts[m].matricula)
  {
    var hits := MatriculaHits(ts);
    var m := FirstMax(hits);
    assert MainRoles(ts, total).value.0 == m;
    forall c | 0 <= c < |ts|
      ensures ts[c].matricula <= ts[m].matricula
      ensures c < m ==> ts[c].matricula < ts[m].matricula
    {
      assert hits[c] == ts[c].matricula;
    }
  }

  /** The amount column is the best eligible one, and its candidate record
      is that of the column itself. */
  lemma ValorRole(ts: seq<Tally>, total: nat)
    requires |ts| >= 1 && MainRoles(ts, total).Some?
    ensures var (m, best) := MainRoles(ts, total).value;
      best == CandidateOf(ts, best.col) && BestEligible(ts, m, total, best.col)
  {
    var mCol := FirstMax(MatriculaHits(ts));
    var ex := ExcludeValor(ts, mCol, total);
    var cs := Candidates(ex);
    var k := FirstBest(cs);
    assert MainRoles(ts, total).value == (mCol, cs[k]);
    var v := cs[k].col;
    EligibleCandidate(ts, mCol, total, v);
    assert cs[k] == CandidateOf(ts, v);
    CandidatesIncreasing(ex);
    forall c | 0 <= c < |ts| && Eligible(ts, mCol, total, c)
      ensures !Before(CandidateOf(ts, c), cs[k])
      ensures c < v ==> Before(cs[k], CandidateOf(ts, c))
    {
      EligibleCandidate(ts, mCol, total, c);
      CandidateFor(ex, c);
      var i :| 0 <= i < |cs| && cs[i].col == c;
      assert cs[i] == CandidateOf(ts, c);
      if c < v {
        assert i < k;
      }
    }
  }

  /** The detection's matricula column is the first with the most
      matricula hits, its amount column the best eligible one, and its
      confidence the tier of their hit counts. */
  lemma ChooseRoles(ts: seq<Tally>, total: nat)
    requires |ts| >= 1 && Choose(ts, total).Some?
    ensures var d := Choose(ts, total).value; var m := d.matriculaCol; var v := d.valorCol;
      && m < |ts| && v < |ts| && ts[m].matricula != 0
      && (forall c :: 0 <= c < |ts| ==> ts[c].matricula <= ts[m].matricula)
      && (forall c :: 0 <= c < m ==> ts[c].matricula < ts[m].matricula)
      && BestEligible(ts, m, total, v)
      && d.confidence == Tier(ts[m].matricula, ts[v].valor, total)
  {
    MatriculaRole(ts, total);
    ValorRole(ts, total);
  }

  /** Each optional role avoids the matricula and amount columns and the
      roles chosen before it, and is reported only with enough hits: an event
      column with at least one, a name or CPF column with more than 30% of
      the rows. */
  lemma PickOptionalDistinct(ev: seq<int>, nm: seq<int>, cp: seq<int>, mCol: nat, vCol: nat, total: nat)
    requires |ev| == |nm| == |cp| && mCol < |ev| && vCol < |ev|
    ensures var o := PickOptional(ev, nm, cp, mCol, vCol, total);
      && (o.eventoCol.Some? ==> var e := o.eventoCol.value;
            e < |ev| && e != mCol && e != vCol && ev[e] > 0)
      && (o.nomeCol.Some? ==> var n := o.nomeCol.value;
            n < |ev| && n != mCol && n != vCol && o.eventoCol != Some(n) && 10 * nm[n] > 3 * total)
      && (o.cpfCol.Some? ==> var c := o.cpfCol.value;
            c < |ev| && c != mCol && c != vCol && o.eventoCol != Some(c)
            && o.nomeCol != Some(c) && 10 * cp[c] > 3 * total)
  {
    var (eCol, eCount) := PickEvento(ev, mCol, vCol);
    PickEventoAvoids(ev, mCol, vCol);
    var (nCol, nCount) := PickNome(nm, mCol, vCol, eCol, eCount);
    PickNomeAvoids(nm, mCol, vCol, eCol, eCount);
    PickCpfAvoids(cp, mCol, vCol, eCol, eCount, nCol, nCount);
  }

  /** A positive event count belongs to a column other than the matricula
      and amount ones. */
  lemma PickEventoAvoids(ev: seq<int>, mCol: nat, vCol: nat)
    requires mCol < |ev| && vCol < |ev|
    ensures var (e, n) := PickEvento(ev, mCol, vCol);
      e < |ev| && (n > 0 ==> e != mCol && e != vCol && ev[e] == n)
  {
    var a := ev[mCol := -1][vCol := -1];
    var e := FirstMax(a);
  }

  /** A positive name count belongs to a column other than the matricula
      and amount ones, and other than an event column with hits. */
  lemma PickNomeAvoids(nm: seq<int>, mCol: nat, vCol: nat, eCol: nat, eCount: int)
    requires mCol < |nm| && vCol < |nm| && eCol < |nm|
    ensures var (n, k) := PickNome(nm, mCol, vCol, eCol, eCount);
      n < |nm| && (k > 0 ==> n != mCol && n != vCol && (eCount > 0 ==> n != eCol) && nm[n] == k)
  {
    var a0 := nm[mCol := -1][vCol := -1];
    var a := if eCount > 0 then a0[eCol := -1] else a0;
    var n := FirstMax(a);
  }

  /** A positive CPF count belongs to a column other than the matricula and
      amount ones, an event column with hits and a name column with hits. */
  lemma PickCpfAvoids(cp: seq<int>, mCol: nat, vCol: nat, eCol: nat, eCount: int, nCol: nat, nCount: int)
    requires mCol < |cp| && vCol < |cp| && eCol < |cp| && nCol < |cp|
    ensures var (c, k) := PickCpf(cp, mCol, vCol, eCol, eCount, nCol, nCount);
      c < |cp|
      && (k > 0 ==>
            c != mCol && c != vCol && (eCount > 0 ==> c != eCol) && (nCount > 0 ==> c != nCol) && cp[c] == k)
  {
    var a0 := cp[mCol := -1][vCol := -1];
    var a1 := if eCount > 0 then a0[eCol := -1] else a0;
    var a := if nCount > 0 then a1[nCol := -1] else a1;
    var c := FirstMax(a);
  }

  /** The reported columns are pairwise distinct. */
  lemma ChooseDistinct(ts: seq<Tally>, total: nat)
    requires |ts| >= 1 && Choose(ts, total).Some?
    ensures var d := Choose(ts, total).value;
      && d.matriculaCol != d.valorCol
      && (d.eventoCol.Some? ==> var e := d.eventoCol.value;
            e < |ts| && e != d.matriculaCol && e != d.valorCol && ts[e].evento > 0)
      && (d.nomeCol.Some? ==> var n := d.nomeCol.value;
            n < |ts| && n != d.matriculaCol && n != d.valorCol && d.eventoCol != Some(n)
            && 10 * ts[n].nome > 3 * total)
      && (d.cpfCol.Some? ==> var c := d.cpfCol.value;
            c < |ts| && c != d.matriculaCol && c != d.valorCol && d.eventoCol != Some(c)
            && d.nomeCol != Some(c) && 10 * ts[c].cpf > 3 * total)
  {
    ValorRole(ts, total);
    var (m, best) := MainRoles(ts, total).value;
    PickOptionalDistinct(EventoHits(ts), NomeHits(ts), CpfHits(ts), m, best.col, total);
  }

  /** The event column, when there is none, is missing because no column
      but the matricula and amount ones has an event hit. */
  lemma ChooseNoEvento(ts: seq<Tally>, total: nat)
    requires |ts| >= 1 && Choose(ts, total).Some? && Choose(ts, total).value.eventoCol.None?
    ensures var d := Choose(ts, total).value;
      forall c :: 0 <= c < |ts| && c != d.matriculaCol && c != d.valorCol ==> ts[c].evento <= 0
  {
    var d := Choose(ts, total).value;
    var ev := EventoHits(ts)[d.matriculaCol := -1][d.valorCol := -1];
    forall c | 0 <= c < |ts| && c != d.matriculaCol && c != d.valorCol
      ensures ts[c].evento <= 0
    {
      assert ev[c] == ts[c].evento;
    }
  }

  function Rank(c: Confidence): nat {
    match c
    case Low => 0
    case Medium => 1
    case High => 2
  }

  /** More hits never lower the confidence. */
  lemma TierMonotone(m: int, v: int, m': int, v': int, total: nat)
    requires m <= m' && v <= v'
    ensures Rank(Tier(m, v, total)) <= Rank(Tier(m', v', total))
  {
  }

  /** On the counted tables, with the hit bounds: no detection when no cell
      of the grid is read as a matricula. */
  lemma DetectNoMatricula(p: CellParsers, rows: seq<seq<Cell>>)
    requires forall k, col :: 0 <= k < |rows| && 0 <= col < |rows[k]| ==> p.matricula(rows[k][col]).None?
    ensures Detect(p, rows).None?
  {
    if rows != [] && MaxLen(rows) != 0 {
      var q := SheetTests(p);
      var ts := Tallies(q, rows, MaxLen(rows));
      forall c | 0 <= c < |ts|
        ensures ts[c].matricula == 0
      {
        NoMatriculaHits(q, rows, |rows|, c);
        TallyBounds(q, rows, |rows|, c);
      }
      ChooseNone(ts, |rows|);
    }
  }

  /** The tables the choice starts from respect the hit bounds. */
  lemma TalliesBounded(q: CellTests, rows: seq<seq<Cell>>, maxCols: nat)
    ensures var ts := Tallies(q, rows, maxCols);
      forall c :: 0 <= c < maxCols ==>
        0 <= ts[c].matricula <= |rows| && 0 <= ts[c].valor <= |rows| && 0 <= ts[c].evento <= |rows|
        && 0 <= ts[c].cpf <= |rows| && 0 <= ts[c].nome <= |rows| && ts[c].sum >= 0
  {
    forall c | 0 <= c < maxCols {
      TallyBounds(q, rows, |rows|, c);
    }
  }

  // ---------------------------------------------------------------------------
  // The detector

  /** `detectSheetColumns(rows)`. */
  method DetectSheetColumns(p: CellParsers, rows: seq<seq<Cell>>) returns (res: Option<Detection>)
    ensures res == Detect(p, rows)
  {
    if |rows| == 0 {
      return None;
    }
    var maxCols := MaxLen(rows);
    if maxCols == 0 {
      return None;
    }
    var tallies := CountColumns(SheetTests(p), rows, maxCols);
    res := ChooseColumns(tallies, |rows|);
  }

  /** The counting pass: every cell of every row adds to its column. */
  method CountColumns(q: CellTests, rows: seq<seq<Cell>>, maxCols: nat)
    returns (tallies: array<Tally>)
    requires forall k :: 0 <= k < |rows| ==> |rows[k]| <= maxCols
    ensures fresh(tallies)
    ensures tallies[..] == Tallies(q, rows, maxCols)
  {
    tallies := new Tally[maxCols](_ => Zero);
    for i := 0 to |rows|
      invariant forall c :: 0 <= c < maxCols ==> tallies[c] == ColumnTally(q, rows, i, c)
    {
      CountRow(q, tallies, rows[i]);
    }
  }

  /** One row of the counting pass: each of its cells adds to its column,
      and the columns past its end are left alone. */
  method CountRow(q: CellTests, tallies: array<Tally>, row: seq<Cell>)
    requires |row| <= tallies.Length
    modifies tallies
    ensures forall c :: 0 <= c < tallies.Length ==>
      tallies[c] == if c < |row| then Count(q, old(tallies[c]), row[c]) else old(tallies[c])
  {
    for col := 0 to |row|
      invariant forall c :: 0 <= c < tallies.Length ==>
        tallies[c] == if c < col then Count(q, old(tallies[c]), row[c]) else old(tallies[c])
    {
      tallies[col] := TallyCell(q, tallies[col], row[col]);
    }
  }

  /** The tests one cell goes through, each adding to its own counter. */
  method TallyCell(q: CellTests, t: Tally, cell: Cell) returns (t': Tally)
    ensures t' == Count(q, t, cell)
  {
    var matricula, valor, sum, evento, cpf, nome := t.matricula, t.valor, t.sum, t.evento, t.cpf, t.nome;
    if q.matricula(cell).Some? {
      matricula := matricula + 1;
    }
    if q.looksCpf(cell) {
      cpf := cpf + 1;
    }
    if q.looksNome(cell) {
      nome := nome + 1;
    }
    var amount := q.monetary(cell);
    if amount.Some? && amount.value >= 0 {
      valor := valor + 1;
      sum := sum + amount.value;
    }
    if q.looksEvento(cell) {
      evento := evento + 1;
    }
    t' := Tally(matricula, valor, sum, evento, cpf, nome);
  }

  /** The choosing pass over the counted tables, writing the -1 sentinels
      into them as it goes: the tables are left alone when no column has a
      matricula hit, and otherwise end with the amount exclusions applied. */
  method ChooseColumns(tallies: array<Tally>, total: nat) returns (res: Option<Detection>)
    requires tallies.Length >= 1
    modifies tallies
    ensures res == Choose(old(tallies[..]), total)
    ensures var m := FirstMax(MatriculaHits(old(tallies[..])));
      old(tallies[..])[m].matricula == 0 ==> tallies[..] == old(tallies[..])
    ensures var m := FirstMax(MatriculaHits(old(tallies[..])));
      old(tallies[..])[m].matricula != 0 ==> tallies[..] == ExcludeValor(old(tallies[..]), m, total)
  {
    ghost var ts := tallies[..];
    var maxCols := tallies.Length;
    var matriculaCol := IndexOfMax(MatriculaHits(tallies[..]));
    var matriculaCount := tallies[matriculaCol].matricula;
    if matriculaCount == 0 {
      return None;
    }
    ExcludeValorColumns(tallies, matriculaCol, total);
    var candidates := CollectCandidates(tallies);
    if |candidates| == 0 {
      return None;
    }
    var b := BestCandidate(candidates);
    var valorCol := candidates[b].col;
    var valorCount := candidates[b].hits;
    ExcludeValorKeepsOthers(ts, matriculaCol, total);
    var optionals := PickOptionalColumns(tallies, matriculaCol, valorCol, total);
    var confidence := Tier(matriculaCount, valorCount, total);
    res := Some(Detection(matriculaCol, valorCol,
      optionals.eventoCol, optionals.nomeCol, optionals.cpfCol, confidence));
  }

  /** The event, name and CPF choices, each on its own copy of the hit
      table with the -1 sentinels written into it. */
  method PickOptionalColumns(tallies: array<Tally>, matriculaCol: nat, valorCol: nat, total: nat)
    returns (o: Optionals)
    requires matriculaCol < tallies.Length && valorCol < tallies.Length
    ensures var ts := tallies[..];
      o == PickOptional(EventoHits(ts), NomeHits(ts), CpfHits(ts), matriculaCol, valorCol, total)
  {
    var ts := tallies[..];
    var eventoCol, eventoCount := PickEventoColumn(EventoHits(ts), matriculaCol, valorCol);
    var nomeCol, nomeCount := PickNomeColumn(NomeHits(ts), matriculaCol, valorCol, eventoCol, eventoCount);
    var cpfCol, cpfCount := PickCpfColumn(CpfHits(ts), matriculaCol, valorCol,
      eventoCol, eventoCount, nomeCol, nomeCount);
    o := Optionals(
      if eventoCount > 0 then Some(eventoCol) else None,
      if 10 * nomeCount > 3 * total then Some(nomeCol) else None,
      if 10 * cpfCount > 3 * total then Some(cpfCol) else None);
  }

  /** The event choice on a copy of the event hits. */
  method PickEventoColumn(hits: seq<int>, matriculaCol: nat, valorCol: nat) returns (col: nat, count: int)
    requires matriculaCol < |hits| && valorCol < |hits|
    ensures (col, count) == PickEvento(hits, matriculaCol, valorCol)
  {
    var eventoHits := hits;
    eventoHits := eventoHits[matriculaCol := -1];
    eventoHits := eventoHits[valorCol := -1];
    col := IndexOfMax(eventoHits);
    count := eventoHits[col];
  }

  /** The name choice on a copy of the name hits. */
  method PickNomeColumn(hits: seq<int>, matriculaCol: nat, valorCol: nat, eventoCol: nat, eventoCount: int)
    returns (col: nat, count: int)
    requires matriculaCol < |hits| && valorCol < |hits| && eventoCol < |hits|
    ensures (col, count) == PickNome(hits, matriculaCol, valorCol, eventoCol, eventoCount)
  {
    var nomeHits := hits;
    nomeHits := nomeHits[matriculaCol := -1];
    nomeHits := nomeHits[valorCol := -1];
    if eventoCount > 0 {
      nomeHits := nomeHits[eventoCol := -1];
    }
    col := IndexOfMax(nomeHits);
    count := nomeHits[col];
  }

  /** The CPF choice on a copy of the CPF hits. */
  method PickCpfColumn(hits: seq<int>, matriculaCol: nat, valorCol: nat, eventoCol: nat, eventoCount: int,
                       nomeCol: nat, nomeCount: int)
    returns (col: nat, count: int)
    requires matriculaCol < |hits| && valorCol < |hits| && eventoCol < |hits| && nomeCol < |hits|
    ensures (col, count) == PickCpf(hits, matriculaCol, valorCol, eventoCol, eventoCount, nomeCol, nomeCount)
  {
    var cpfColCandidates := hits;
    cpfColCandidates := cpfColCandidates[matriculaCol := -1];
    cpfColCandidates := cpfColCandidates[valorCol := -1];
    if eventoCount > 0 {
      cpfColCandidates := cpfColCandidates[eventoCol := -1];
    }
    if nomeCount > 0 {
      cpfColCandidates := cpfColCandidates[nomeCol := -1];
    }
    col := IndexOfMax(cpfColCandidates);
    count := cpfColCandidates[col];
  }

  /** The matricula column and every CPF-like column lose their amount
      hits and sums to the -1 sentinel. */
  method ExcludeValorColumns(tallies: array<Tally>, matriculaCol: nat, total: nat)
    requires matriculaCol < tallies.Length
    modifies tallies
    ensures tallies[..] == ExcludeValor(old(tallies[..]), matriculaCol, total)
  {
    ghost var ts := tallies[..];
    tallies[matriculaCol] := tallies[matriculaCol].(valor := -1, sum := -1);
    for col := 0 to tallies.Length
      invariant forall c :: 0 <= c < tallies.Length ==>
        tallies[c] == if c < col || c == matriculaCol then ExcludeValor(ts, matriculaCol, total)[c] else ts[c]
    {
      if 10 * tallies[col].cpf >= 3 * total {
        tallies[col] := tallies[col].(valor := -1, sum := -1);
      }
    }
  }

  /** The columns whose amount hits are positive, in column order. */
  method CollectCandidates(tallies: array<Tally>) returns (candidates: seq<Candidate>)
    ensures candidates == Candidates(tallies[..])
  {
    candidates := [];
    for col := 0 to tallies.Length
      invariant candidates == Candidates(tallies[..col])
    {
      assert tallies[..col + 1][..col] == tallies[..col];
      if tallies[col].valor > 0 {
        candidates := candidates + [Candidate(col, tallies[col].valor, tallies[col].sum)];
      }
    }
    assert tallies[..tallies.Length] == tallies[..];
  }
}
