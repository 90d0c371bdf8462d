/**
 * The kernel of the simulated operating system (`so.c`): one entry point per
 * interrupt that saves the interrupted process's registers, handles the
 * interrupt, resolves pending I/O and waits, schedules and dispatches.
 *
 * The CPU, memory, devices and the program loader are outside the kernel and
 * appear here as values the kernel reads: the register hand-off area, a map
 * of readable memory cells, a map of device registers, and a map from program
 * names to load addresses.
 */
module SO {
  import opened Processos

  // ---------------------------------------------------------------------------
  // Constants
  // ---------------------------------------------------------------------------

  /** Interrupt causes (`irq_t`). */
  const IRQ_RESET: int := 0
  const IRQ_ERR_CPU: int := 1
  const IRQ_SISTEMA: int := 2
  const IRQ_RELOGIO: int := 3

  /** System call numbers. */
  const SO_LE: int := 1
  const SO_ESCR: int := 2
  const SO_CRIA_PROC: int := 7
  const SO_MATA_PROC: int := 8
  const SO_ESPERA_PROC: int := 9

  /** Register offsets inside a terminal group (`proc_term_t`). */
  const TERM_TECLADO: int := 0
  const TERM_TECLADO_OK: int := 1
  const TERM_TELA: int := 2
  const TERM_TELA_OK: int := 3

  /** Timer device registers. */
  const D_RELOGIO_TIMER: int := 18
  const D_RELOGIO_INTERRUPCAO: int := 19

  /** Instructions between clock interrupts. */
  const INTERVALO_INTERRUPCAO: int := 50

  /** The bootstrap program and the address it must load at. */
  const PROGRAMA_INIT: string := "init.maq"
  const END_CARGA_INIT: int := 100

  /** Size of the buffer a program name is copied into. */
  const TAM_NOME: int := 100

  datatype Option<T> = None | Some(value: T)

  /** Processor mode written to the hand-off area. */
  datatype Modo = Supervisor | Usuario

  /** The fixed hand-off area (`IRQ_END_*`) where the CPU leaves the
      interrupted registers and picks up the ones to resume with. */
  datatype AreaTroca = AreaTroca(pc: int, a: int, x: int, complemento: int, erro: int, modo: Modo)

  // ---------------------------------------------------------------------------
  // Terminal mapping
  // ---------------------------------------------------------------------------

  /** C's `%`, which truncates toward zero. */
  function RestoC(a: int, b: int): int
    requires b > 0
  {
    if a >= 0 then a % b else -((-a) % b)
  }

  /** `so_pega_terminal`: the device register `terminal` of the process's terminal group. */
  function PegaTerminal(pid: int, terminal: int): int
  {
    RestoC(pid - 1, 4) * 4 + terminal
  }

  /** For a valid pid and offset, the device is one of the 16 terminal registers. */
  lemma PegaTerminalFaixa(pid: int, terminal: int)
    requires pid >= 1 && 0 <= terminal < 4
    ensures 0 <= PegaTerminal(pid, terminal) < 16
    ensures PegaTerminal(pid, terminal) == 4 * ((pid - 1) % 4) + terminal
    ensures PegaTerminal(pid, terminal) % 4 == terminal
  {
  }

  /** Two registers coincide exactly when the offsets match and the pids
      differ by a multiple of 4: such processes share a terminal. */
  lemma PegaTerminalCompartilhado(pid1: int, pid2: int, t1: int, t2: int)
    requires pid1 >= 1 && pid2 >= 1 && 0 <= t1 < 4 && 0 <= t2 < 4
    ensures PegaTerminal(pid1, t1) == PegaTerminal(pid2, t2) <==> t1 == t2 && (pid1 - pid2) % 4 == 0
  {
  }

  /** An output data register: one of the 16 terminal registers, at offset `TERM_TELA`. */
  predicate EhTela(d: int)
  {
    0 <= d < 16 && d % 4 == TERM_TELA
  }

  // ---------------------------------------------------------------------------
  // Strings in simulated memory (copia_str_da_mem)
  // ---------------------------------------------------------------------------

  /** The string stored at `ender`: the cells before the first 0, all read
      within `tam` cells; none on an unreadable cell, a cell outside 0..255,
      or no 0 within `tam` cells. */
  function CadeiaEm(mem: map<int, int>, ender: int, tam: int): Option<string>
    decreases tam
  {
    if tam <= 0 || ender !in mem || mem[ender] < 0 || mem[ender] > 255 then None
    else if mem[ender] == 0 then Some("")
    else match CadeiaEm(mem, ender + 1, tam - 1)
      case None => None
      case Some(s) => Some([mem[ender] as char] + s)
  }

  /** Cell `ender + k` holds 0 and it and every cell before it are readable bytes. */
  ghost predicate ZeroAlcancavel(mem: map<int, int>, ender: int, k: int)
  {
    && (forall e | ender <= e <= ender + k :: e in mem && 0 <= mem[e] <= 255)
    && ender + k in mem && mem[ender + k] == 0
  }

  /** The copy succeeds exactly when some cell within `tam` holds 0 and every
      cell up to it is a readable byte; the copied string is then the cells
      before the first 0. */
  lemma {:induction false} CadeiaEmSucesso(mem: map<int, int>, ender: int, tam: int)
    ensures CadeiaEm(mem, ender, tam).Some? <==> exists k | 0 <= k < tam :: ZeroAlcancavel(mem, ender, k)
    ensures CadeiaEm(mem, ender, tam).Some? ==>
              var s := CadeiaEm(mem, ender, tam).value;
              && |s| < tam && ZeroAlcancavel(mem, ender, |s|)
              && forall j | 0 <= j < |s| :: ender + j in mem && s[j] as int == mem[ender + j] && s[j] != 0 as char
    decreases tam
  {
    if tam <= 0 || ender !in mem || mem[ender] < 0 || mem[ender] > 255 {
    } else if mem[ender] == 0 {
      assert ZeroAlcancavel(mem, ender, 0);
    } else {
      CadeiaEmSucesso(mem, ender + 1, tam - 1);
      if exists k | 0 <= k < tam :: ZeroAlcancavel(mem, ender, k) {
        var k :| 0 <= k < tam && ZeroAlcancavel(mem, ender, k);
        assert k != 0;
        assert ZeroAlcancavel(mem, ender + 1, k - 1) by {
          assert ender + 1 + (k - 1) == ender + k;
        }
      }
      if CadeiaEm(mem, ender + 1, tam - 1).Some? {
        var t := CadeiaEm(mem, ender + 1, tam - 1).value;
        var s := [mem[ender] as char] + t;
        assert CadeiaEm(mem, ender, tam) == Some(s);
        assert ZeroAlcancavel(mem, ender, |s|) by {
          assert ZeroAlcancavel(mem, ender + 1, |t|);
          assert ender + 1 + |t| == ender + |s|;
          forall e | ender <= e <= ender + |s|
            ensures e in mem && 0 <= mem[e] <= 255
          {
            if e > ender {
              assert ender + 1 <= e <= ender + 1 + |t|;
            }
          }
        }
        forall j | 0 <= j < |s|
          ensures ender + j in mem && s[j] as int == mem[ender + j] && s[j] != 0 as char
        {
          if j > 0 {
            assert s[j] == t[j - 1];
            assert ender + 1 + (j - 1) == ender + j;
          }
        }
      }
    }
  }

  /** Memory with `s` and a terminating 0 stored from `ender` on. */
  function Grava(mem: map<int, int>, ender: int, s: string): map<int, int>
    decreases |s|
  {
    if s == [] then mem[ender := 0] else Grava(mem, ender + 1, s[1..])[ender := s[0] as int]
  }

  /** Cells before `ender` do not affect the string read at `ender`. */
  lemma {:induction false} CadeiaEmIgnoraAnteriores(mem: map<int, int>, e: int, v: int, ender: int, tam: int)
    requires e < ender
    ensures CadeiaEm(mem[e := v], ender, tam) == CadeiaEm(mem, ender, tam)
    decreases tam
  {
    if tam > 0 && ender in mem && 0 < mem[ender] <= 255 {
      CadeiaEmIgnoraAnteriores(mem, e, v, ender + 1, tam - 1);
    }
  }

  /** Copying back a string of bytes 1..255 that fits the buffer with its
      terminator gives that string: the copy and the store are inverse. */
  lemma {:induction false} CadeiaEmGrava(mem: map<int, int>, ender: int, s: string, tam: int)
    requires forall j | 0 <= j < |s| :: 1 <= s[j] as int <= 255
    requires |s| < tam
    ensures CadeiaEm(Grava(mem, ender, s), ender, tam) == Some(s)
    decreases |s|
  {
    if s != [] {
      var m := Grava(mem, ender + 1, s[1..]);
      CadeiaEmGrava(mem, ender + 1, s[1..], tam - 1);
      CadeiaEmIgnoraAnteriores(m, ender, s[0] as int, ender + 1, tam - 1);
      assert [s[0]] + s[1..] == s;
    }
  }

  /** `s` in front of the string an option holds. */
  function Prefixa(s: string, o: Option<string>): Option<string>
  {
    match o
    case None => None
    case Some(t) => Some(s + t)
  }

  /** `copia_str_da_mem`: copy the string at `ender`, reading at most `tam`
      cells; `ok` reports whether a 0 was reached. */
  method CopiaStrDaMem(tam: int, mem: map<int, int>, ender: int) returns (ok: bool, str: string)
    ensures ok == CadeiaEm(mem, ender, tam).Some?
    ensures ok ==> str == CadeiaEm(mem, ender, tam).value
  {
    str := "";
    var i := 0;
    match CadeiaEm(mem, ender, tam) {
      case None =>
      case Some(t) => assert "" + t == t;
    }
    while i < tam
      invariant 0 <= i && (i == 0 || i <= tam)
      invariant CadeiaEm(mem, ender, tam) == Prefixa(str, CadeiaEm(mem, ender + i, tam - i))
      decreases tam - i
    {
      if ender + i !in mem {
        return false, str;
      }
      var caractere := mem[ender + i];
      if caractere < 0 || caractere > 255 {
        return false, str;
      }
      if caractere == 0 {
        assert str + "" == str;
        return true, str;
      }
      match CadeiaEm(mem, ender + i + 1, tam - i - 1) {
        case None =>
        case Some(t) =>
          assert str + ([caractere as char] + t) == (str + [caractere as char]) + t;
      }
      str := str + [caractere as char];
      i := i + 1;
    }
    return false, str;
  }

  // ---------------------------------------------------------------------------
  // Facts about the registry's values
  // ---------------------------------------------------------------------------

  /** Record `i` of the registry has pid `i + 1`. */
  predicate Indexado(regs: seq<Registro>)
  {
    forall i | 0 <= i < |regs| :: regs[i].pid == i + 1
  }

  /** A blocked record has a reason, and one waiting for a process names a
      registered pid. */
  predicate BemBloqueado(r: Registro, n: int)
  {
    r.estado == Bloqueado ==>
      r.tipoBloqueio != Nulo && (r.tipoBloqueio == EsperandoProcesso ==> 1 <= r.pidPrioridade <= n)
  }

  /** Every record of the registry is well blocked. */
  predicate Bloqueios(regs: seq<Registro>)
  {
    forall i | 0 <= i < |regs| :: BemBloqueado(regs[i], |regs|)
  }

  /** No record other than the one at index `c` is running (`c` is -1 for none). */
  predicate SoExecuta(regs: seq<Registro>, c: int)
  {
    forall i | 0 <= i < |regs| :: regs[i].estado == Executando ==> i == c
  }

  // ---------------------------------------------------------------------------
  // The pendency resolver on values (so_trata_pendencias and its helpers)
  // ---------------------------------------------------------------------------

  /** What the resolver reads and writes: the registry's records, the device
      registers, the pids in the ready queue and the internal-error flag. */
  datatype Varredura = Varredura(regs: seq<Registro>, es: map<int, int>, prontos: seq<int>, erro: bool)

  /** `so_desbloqueia_processo` applied to record `i`, whose value is now `r`. */
  function Libera(v: Varredura, i: nat, r: Registro): Varredura
    requires i < |v.regs|
  {
    v.(regs := v.regs[i := r.Desbloqueia()], prontos := v.prontos + [r.pid])
  }

  /** `so_trata_pendencia_entrada` for record `i`. */
  function PendenciaEntrada(v: Varredura, i: nat): Varredura
    requires i < |v.regs|
  {
    var r := v.regs[i];
    var estado := PegaTerminal(r.pid, TERM_TECLADO_OK);
    var dado := PegaTerminal(r.pid, TERM_TECLADO);
    if estado !in v.es then v.(erro := true)
    else if v.es[estado] == 0 then v
    else if dado !in v.es then v.(erro := true)
    else Libera(v, i, r.(a := v.es[dado]))
  }

  /** `so_trata_pendencia_saida` for record `i`. */
  function PendenciaSaida(v: Varredura, i: nat): Varredura
    requires i < |v.regs|
  {
    var r := v.regs[i];
    var estado := PegaTerminal(r.pid, TERM_TELA_OK);
    var tela := PegaTerminal(r.pid, TERM_TELA);
    if estado !in v.es then v.(erro := true)
    else if v.es[estado] == 0 then v
    else if tela !in v.es then v.(erro := true)
    else Libera(v.(es := v.es[tela := r.x]), i, r.(a := 0))
  }

  /** `so_trata_pendencia_processo` for record `i`; the registry is indexed
      by pid - 1, and a waited-for pid outside it (a null dereference in the
      source) leaves the record blocked. */
  function PendenciaProcesso(v: Varredura, i: nat): Varredura
    requires i < |v.regs|
  {
    var r := v.regs[i];
    var alvo := r.pidPrioridade;
    if 1 <= alvo <= |v.regs| && v.regs[alvo - 1].estado == Terminado then Libera(v, i, r) else v
  }

  /** One iteration of the scan: record `i` is handled by its block reason. */
  function Passo(v: Varredura, i: nat): (w: Varredura)
    requires i < |v.regs|
    ensures |w.regs| == |v.regs|
  {
    var r := v.regs[i];
    if r.estado != Bloqueado then v
    else match r.tipoBloqueio
      case EsperandoEntrada => PendenciaEntrada(v, i)
      case EsperandoSaida => PendenciaSaida(v, i)
      case EsperandoProcesso => PendenciaProcesso(v, i)
      case Nulo => v
  }

  /** The scan over the first `n` records, in registry order. */
  function Varre(v: Varredura, n: nat): (w: Varredura)
    requires n <= |v.regs|
    ensures |w.regs| == |v.regs|
  {
    if n == 0 then v else Passo(Varre(v, n - 1), n - 1)
  }

  /** The walk of `so_trata_pendencias` as written, from record `i` on, over
      an intact list: freeing a record links it into the ready queue and so
      clears the link the walk follows next, which ends the walk. A record is
      freed exactly when its step appends to the ready queue. */
  function VarreComoEscrito(v: Varredura, i: nat): (w: Varredura)
    requires i <= |v.regs|
    ensures |w.regs| == |v.regs|
    ensures |w.prontos| <= |v.prontos| + 1
    decreases |v.regs| - i
  {
    if i == |v.regs| then v
    else
      var u := Passo(v, i);
      if u.prontos != v.prontos then u
      else VarreComoEscrito(u, i + 1)
  }

  /** Reference outcome for record `k`, stated on the state before the scan:
      input ready gives A := datum, output ready gives A := 0, a terminated
      target frees its waiter (A untouched); in all three cases the record
      becomes ready.  Anything else stays as it is. */
  function Resolvido(v: Varredura, k: nat): Registro
    requires k < |v.regs|
  {
    var r := v.regs[k];
    if r.estado != Bloqueado then r
    else match r.tipoBloqueio
      case EsperandoEntrada =>
        var estado := PegaTerminal(r.pid, TERM_TECLADO_OK);
        var dado := PegaTerminal(r.pid, TERM_TECLADO);
        if estado in v.es && v.es[estado] != 0 && dado in v.es then r.(a := v.es[dado]).Desbloqueia() else r
      case EsperandoSaida =>
        var estado := PegaTerminal(r.pid, TERM_TELA_OK);
        var tela := PegaTerminal(r.pid, TERM_TELA);
        if estado in v.es && v.es[estado] != 0 && tela in v.es then r.(a := 0).Desbloqueia() else r
      case EsperandoProcesso =>
        var alvo := r.pidPrioridade;
        if 1 <= alvo <= |v.regs| && v.regs[alvo - 1].estado == Terminado then r.Desbloqueia() else r
      case Nulo => r
  }

  /** Record `k` makes the scan raise the internal error: a device register
      it needs cannot be accessed. */
  ghost predicate FalhaEm(v: Varredura, k: nat)
    requires k < |v.regs|
  {
    var r := v.regs[k];
    && r.estado == Bloqueado
    && match r.tipoBloqueio
       case EsperandoEntrada =>
         var estado := PegaTerminal(r.pid, TERM_TECLADO_OK);
         estado !in v.es || (v.es[estado] != 0 && PegaTerminal(r.pid, TERM_TECLADO) !in v.es)
       case EsperandoSaida =>
         var estado := PegaTerminal(r.pid, TERM_TELA_OK);
         estado !in v.es || (v.es[estado] != 0 && PegaTerminal(r.pid, TERM_TELA) !in v.es)
       case _ => false
  }

  /** The pids, in registry order, of the first `n` records the scan frees. */
  function Liberados(v: Varredura, n: nat): seq<int>
    requires n <= |v.regs|
  {
    if n == 0 then []
    else Liberados(v, n - 1)
         + (if v.regs[n - 1].estado == Bloqueado && Resolvido(v, n - 1).estado == Pronto
            then [v.regs[n - 1].pid] else [])
  }

  /** A record is either left alone or it was blocked and is now ready, with
      every field other than the state, the reason and A as before. */
  lemma ResolvidoForma(v: Varredura, k: nat)
    requires k < |v.regs|
    ensures var r, s := v.regs[k], Resolvido(v, k);
            s == r || (r.estado == Bloqueado && s == r.(a := s.a, estado := Pronto, tipoBloqueio := Nulo))
  {
  }

  /** Two resolver states that agree on everything a record's resolution
      reads: the device registers other than output data, which ones exist,
      and which records have terminated. */
  ghost predicate MesmoContexto(v: Varredura, u: Varredura)
  {
    && |u.regs| == |v.regs|
    && u.es.Keys == v.es.Keys
    && (forall d | d in v.es && !EhTela(d) :: u.es[d] == v.es[d])
    && (forall k | 0 <= k < |v.regs| :: (u.regs[k].estado == Terminado) == (v.regs[k].estado == Terminado))
  }

  /** A record's resolution depends only on that context. */
  lemma ResolvidoContexto(v: Varredura, u: Varredura, m: nat)
    requires MesmoContexto(v, u) && m < |v.regs| && u.regs[m] == v.regs[m] && v.regs[m].pid >= 1
    ensures Resolvido(u, m) == Resolvido(v, m)
    ensures FalhaEm(u, m) == FalhaEm(v, m)
  {
  }

  /** One step of the scan resolves record `m` as the reference says, on the
      state it is applied to. */
  lemma PassoResolvido(u: Varredura, m: nat)
    requires m < |u.regs| && u.regs[m].pid >= 1
    ensures var w := Passo(u, m);
            && w.regs == u.regs[m := Resolvido(u, m)]
            && w.prontos == u.prontos + (if u.regs[m].estado == Bloqueado && Resolvido(u, m).estado == Pronto
                                         then [u.regs[m].pid] else [])
            && w.erro == (u.erro || FalhaEm(u, m))
            && w.es.Keys == u.es.Keys
            && (forall d | d in u.es && !EhTela(d) :: w.es[d] == u.es[d])
  {
    PegaTerminalFaixa(u.regs[m].pid, TERM_TELA);
  }

  /** `w` is the state after scanning the first `n` records of `v`, as the
      reference says: those records are resolved on `v` and the rest are
      untouched, the freed pids are appended in registry order, the error
      flag is raised exactly by a failing access, and only output data
      registers are written. */
  ghost predicate ResolveAte(v: Varredura, w: Varredura, n: nat)
    requires n <= |v.regs|
  {
    && |w.regs| == |v.regs|
    && (forall k | 0 <= k < |v.regs| :: w.regs[k] == if k < n then Resolvido(v, k) else v.regs[k])
    && w.prontos == v.prontos + Liberados(v, n)
    && w.erro == (v.erro || exists k | 0 <= k < n :: FalhaEm(v, k))
    && w.es.Keys == v.es.Keys
    && (forall d | d in v.es && !EhTela(d) :: w.es[d] == v.es[d])
  }

  /** One more step of the scan extends that description by one record. */
  lemma VarreUmPasso(v: Varredura, u: Varredura, m: nat)
    requires m < |v.regs| && Indexado(v.regs) && ResolveAte(v, u, m)
    ensures ResolveAte(v, Passo(u, m), m + 1)
  {
    forall k | 0 <= k < |v.regs|
      ensures (u.regs[k].estado == Terminado) == (v.regs[k].estado == Terminado)
    {
      if k < m {
        ResolvidoForma(v, k);
      }
    }
    assert MesmoContexto(v, u);
    ResolvidoContexto(v, u, m);
    PassoResolvido(u, m);
    var w := Passo(u, m);
    if w.erro && !v.erro && !(exists k | 0 <= k < m :: FalhaEm(v, k)) {
      assert FalhaEm(v, m);
    }
  }

  /** The scan does what the per-record reference says, in registry order:
      the first `n` records are resolved, the rest untouched; the freed pids
      are appended to the ready queue in order; the error flag is raised
      exactly by a failing device access; only output data registers are
      written. */
  lemma {:induction false} VarreResolve(v: Varredura, n: nat)
    requires n <= |v.regs| && Indexado(v.regs)
    ensures ResolveAte(v, Varre(v, n), n)
  {
    if n > 0 {
      VarreResolve(v, n - 1);
      VarreUmPasso(v, Varre(v, n - 1), n - 1);
    }
  }

  /** The scan leaves the timer registers, and every register outside the
      terminal groups, as they were. */
  lemma VarreMantemRelogio(v: Varredura)
    requires Indexado(v.regs)
    ensures var w := Varre(v, |v.regs|);
            && w.es.Keys == v.es.Keys
            && (D_RELOGIO_TIMER in v.es ==> w.es[D_RELOGIO_TIMER] == v.es[D_RELOGIO_TIMER])
            && (D_RELOGIO_INTERRUPCAO in v.es ==> w.es[D_RELOGIO_INTERRUPCAO] == v.es[D_RELOGIO_INTERRUPCAO])
            && (forall d | d in v.es && !(0 <= d < 16) :: w.es[d] == v.es[d])
  {
    VarreResolve(v, |v.regs|);
  }

  /** Two processes blocked on input with both keyboards ready: the scan
      frees both, while the walk as written stops after freeing the first
      and leaves the second blocked. */
  lemma VarreComoEscritoPara(r1: Registro, r2: Registro, es: map<int, int>, prontos: seq<int>)
    requires r1.pid == 1 && r2.pid == 2
    requires r1.estado == Bloqueado && r1.tipoBloqueio == EsperandoEntrada
    requires r2.estado == Bloqueado && r2.tipoBloqueio == EsperandoEntrada
    requires PegaTerminal(1, TERM_TECLADO_OK) in es && es[PegaTerminal(1, TERM_TECLADO_OK)] != 0
    requires PegaTerminal(2, TERM_TECLADO_OK) in es && es[PegaTerminal(2, TERM_TECLADO_OK)] != 0
    requires PegaTerminal(1, TERM_TECLADO) in es && PegaTerminal(2, TERM_TECLADO) in es
    ensures var v := Varredura([r1, r2], es, prontos, false);
            && VarreComoEscrito(v, 0).regs[1] == r2
            && VarreComoEscrito(v, 0).prontos == prontos + [1]
            && Varre(v, 2).regs[1].estado == Pronto
            && Varre(v, 2).prontos == prontos + [1, 2]
  {
    var v := Varredura([r1, r2], es, prontos, false);
    var u := Passo(v, 0);
    assert u.regs[1] == r2 && u.prontos == prontos + [1] && u.es == es;
    assert VarreComoEscrito(v, 0) == u;
    assert Varre(v, 1) == u;
    var w := Passo(u, 1);
    assert w.regs[1].estado == Pronto && w.prontos == prontos + [1, 2];
  }

  /** The ready queue gets the freed pids in increasing order, and a pid is
      freed exactly when its record was blocked and its resolution made it
      ready. */
  lemma {:induction false} LiberadosOrdem(v: Varredura, n: nat)
    requires n <= |v.regs| && Indexado(v.regs)
    ensures forall i | 0 <= i < |Liberados(v, n)| :: 1 <= Liberados(v, n)[i] <= n
    ensures forall i, j | 0 <= i < j < |Liberados(v, n)| :: Liberados(v, n)[i] < Liberados(v, n)[j]
    ensures forall q | 1 <= q <= n :: q in Liberados(v, n) <==>
              v.regs[q - 1].estado == Bloqueado && Resolvido(v, q - 1).estado == Pronto
  {
    if n > 0 {
      LiberadosOrdem(v, n - 1);
      assert n !in Liberados(v, n - 1);
    }
  }

  /** A blocked record whose device status reads zero is left exactly as it
      was, and so are the records that are not blocked. */
  lemma StatusZeroMantem(v: Varredura, k: nat)
    requires k < |v.regs| && v.regs[k].pid >= 1
    requires var r := v.regs[k];
             || r.estado != Bloqueado
             || (r.tipoBloqueio == EsperandoEntrada && PegaTerminal(r.pid, TERM_TECLADO_OK) in v.es
                 && v.es[PegaTerminal(r.pid, TERM_TECLADO_OK)] == 0)
             || (r.tipoBloqueio == EsperandoSaida && PegaTerminal(r.pid, TERM_TELA_OK) in v.es
                 && v.es[PegaTerminal(r.pid, TERM_TELA_OK)] == 0)
    ensures Passo(v, k) == v
    ensures !FalhaEm(v, k)
  {
  }

  /** Input ready: the record gets the keyboard datum in A and becomes
      ready; output ready: its X goes to the screen, A becomes 0 and it
      becomes ready; the waited-for process terminated: it becomes ready
      with A untouched.  Each freed record is appended to the ready queue. */
  lemma PassoLibera(v: Varredura, k: nat)
    requires k < |v.regs| && v.regs[k].pid >= 1 && v.regs[k].estado == Bloqueado
    ensures var r, w := v.regs[k], Passo(v, k);
            && (r.tipoBloqueio == EsperandoEntrada
                && PegaTerminal(r.pid, TERM_TECLADO_OK) in v.es && v.es[PegaTerminal(r.pid, TERM_TECLADO_OK)] != 0
                && PegaTerminal(r.pid, TERM_TECLADO) in v.es
                ==> w.regs[k] == r.(a := v.es[PegaTerminal(r.pid, TERM_TECLADO)], estado := Pronto, tipoBloqueio := Nulo)
                    && w.prontos == v.prontos + [r.pid] && w.es == v.es && w.erro == v.erro)
            && (r.tipoBloqueio == EsperandoSaida
                && PegaTerminal(r.pid, TERM_TELA_OK) in v.es && v.es[PegaTerminal(r.pid, TERM_TELA_OK)] != 0
                && PegaTerminal(r.pid, TERM_TELA) in v.es
                ==> w.regs[k] == r.(a := 0, estado := Pronto, tipoBloqueio := Nulo)
                    && w.es == v.es[PegaTerminal(r.pid, TERM_TELA) := r.x]
                    && w.prontos == v.prontos + [r.pid] && w.erro == v.erro)
            && (r.tipoBloqueio == EsperandoProcesso
                && 1 <= r.pidPrioridade <= |v.regs| && v.regs[r.pidPrioridade - 1].estado == Terminado
                ==> w.regs[k] == r.(estado := Pronto, tipoBloqueio := Nulo)
                    && w.prontos == v.prontos + [r.pid] && w.es == v.es && w.erro == v.erro)
  {
  }

  /** The resolver never makes a record run or terminate, never blocks one,
      and keeps every record's pid and saved PC, X and complemento. */
  lemma ResolvidoPreserva(v: Varredura, k: nat)
    requires k < |v.regs|
    ensures var r, s := v.regs[k], Resolvido(v, k);
            && s.pid == r.pid && s.pc == r.pc && s.x == r.x && s.complemento == r.complemento
            && s.pidPrioridade == r.pidPrioridade && s.quantum == r.quantum
            && (s.estado == Executando <==> r.estado == Executando)
            && (s.estado == Terminado <==> r.estado == Terminado)
            && (s.estado == Bloqueado ==> s == r)
  {
  }

  // ---------------------------------------------------------------------------
  // The live scheduler on values (so_escalona)
  // ---------------------------------------------------------------------------

  /** The index of the first ready record in registry order. */
  function PrimeiroPronto(regs: seq<Registro>): (r: Option<nat>)
    ensures r.None? <==> forall i | 0 <= i < |regs| :: regs[i].estado != Pronto
    ensures r.Some? ==> r.value < |regs| && regs[r.value].estado == Pronto
                        && forall i | 0 <= i < r.value :: regs[i].estado != Pronto
  {
    if regs == [] then None
    else if regs[0].estado == Pronto then Some(0)
    else match PrimeiroPronto(regs[1..])
      case None => None
      case Some(k) => Some(k + 1)
  }

  /** The registry and the current index (-1 for none) after scheduling:
      a running current is kept, otherwise the first ready record runs. */
  function Escala(regs: seq<Registro>, c: int): (seq<Registro>, int)
    requires -1 <= c < |regs|
  {
    if c >= 0 && regs[c].estado == Executando then (regs, c)
    else match PrimeiroPronto(regs)
      case None => (regs, -1)
      case Some(k) => (regs[k := regs[k].(estado := Executando)], k)
  }

  /** After scheduling the current is none or running and is the record of
      least index that was ready (when the old current was not running);
      nothing changes except that record's state; and when at most the old
      current was running, the new current is the only running record. */
  lemma EscalaCorreta(regs: seq<Registro>, c: int)
    requires -1 <= c < |regs|
    ensures var (regs2, c2) := Escala(regs, c);
            && |regs2| == |regs| && -1 <= c2 < |regs|
            && (c2 >= 0 ==> regs2[c2].estado == Executando)
            && (c >= 0 && regs[c].estado == Executando ==> regs2 == regs && c2 == c)
            && (!(c >= 0 && regs[c].estado == Executando) ==>
                  && (c2 == -1 <==> forall i | 0 <= i < |regs| :: regs[i].estado != Pronto)
                  && (c2 >= 0 ==> regs[c2].estado == Pronto && (forall i | 0 <= i < c2 :: regs[i].estado != Pronto)
                                  && regs2 == regs[c2 := regs[c2].(estado := Executando)])
                  && (c2 == -1 ==> regs2 == regs))
            && (SoExecuta(regs, c) ==> SoExecuta(regs2, c2))
  {
  }

  // ---------------------------------------------------------------------------
  // Invariants of the kernel's registry
  // ---------------------------------------------------------------------------

  /** No record disappears or changes pid, and a terminated record stays
      terminated. */
  predicate Avanca(antes: seq<Registro>, depois: seq<Registro>)
  {
    && |antes| <= |depois|
    && forall i | 0 <= i < |antes| ::
         depois[i].pid == antes[i].pid && (antes[i].estado == Terminado ==> depois[i].estado == Terminado)
  }

  /** A well-blocked registry stays so when a well-blocked record is appended. */
  lemma BloqueiosMais(regs: seq<Registro>, r: Registro)
    requires Bloqueios(regs) && BemBloqueado(r, |regs| + 1)
    ensures Bloqueios(regs + [r])
  {
    forall i | 0 <= i < |regs| + 1
      ensures BemBloqueado((regs + [r])[i], |regs| + 1)
    {
      if i < |regs| {
        assert (regs + [r])[i] == regs[i];
      }
    }
  }

  /** The scan keeps pids, never starts or ends a run, frees only blocked
      records, and keeps the registry well-blocked and numbered. */
  lemma {:induction false} VarreMantem(v: Varredura, c: int)
    requires Indexado(v.regs) && Bloqueios(v.regs)
    ensures var w := Varre(v, |v.regs|);
            && Avanca(v.regs, w.regs) && |w.regs| == |v.regs|
            && Indexado(w.regs) && Bloqueios(w.regs)
            && (SoExecuta(v.regs, c) ==> SoExecuta(w.regs, c))
            && v.prontos <= w.prontos && (v.erro ==> w.erro)
  {
    var w := Varre(v, |v.regs|);
    VarreResolve(v, |v.regs|);
    assert w.prontos == v.prontos + Liberados(v, |v.regs|);
    forall k | 0 <= k < |v.regs|
      ensures w.regs[k].pid == v.regs[k].pid
      ensures w.regs[k].estado == Executando <==> v.regs[k].estado == Executando
      ensures w.regs[k].estado == Terminado <==> v.regs[k].estado == Terminado
      ensures BemBloqueado(w.regs[k], |v.regs|)
    {
      ResolvidoPreserva(v, k);
    }
  }

  /** `es_escreve` on the device map: a missing device is not written. */
  function EscreveSe(es: map<int, int>, dispositivo: int, valor: int): (r: map<int, int>)
    ensures r.Keys == es.Keys
    ensures dispositivo in es ==> r[dispositivo] == valor
    ensures forall d | d in es && d != dispositivo :: r[d] == es[d]
  {
    if dispositivo in es then es[dispositivo := valor] else es
  }

  // ---------------------------------------------------------------------------
  // The kernel object (struct so_t)
  // ---------------------------------------------------------------------------

  /** The system calls the dispatcher knows. */
  const CHAMADAS: set<int> := {SO_LE, SO_ESCR, SO_CRIA_PROC, SO_MATA_PROC, SO_ESPERA_PROC}

  // ---------------------------------------------------------------------------
  // The kernel's state as a value, and the effect of each handler on it
  // ---------------------------------------------------------------------------

  /** Everything of `so_t` an interrupt can change: the registry, the ready
      queue (pids), the current registry index, the internal-error flag, the
      device registers and the hand-off area. */
  datatype Nucleo = Nucleo(
    registro: seq<Registro>,
    prontos: seq<int>,
    corrente: Option<nat>,
    erro: bool,
    es: map<int, int>,
    area: AreaTroca)

  /** The kernel invariant: the registry is numbered by creation, the
      current index is in it, and blocked records name a reason and, when
      waiting for a process, a registered pid. */
  predicate Consistente(n: Nucleo)
  {
    && Indexado(n.registro)
    && Bloqueios(n.registro)
    && (n.corrente.Some? ==> n.corrente.value < |n.registro|)
  }

  /** What every step of the kernel keeps: the error flag stays set, no
      record is lost or revived, and the ready queue only grows. */
  predicate Progride(n: Nucleo, m: Nucleo)
  {
    (n.erro ==> m.erro) && Avanca(n.registro, m.registro) && n.prontos <= m.prontos
  }

  /** At most the current record runs. */
  predicate Exclusivo(n: Nucleo)
  {
    SoExecuta(n.registro, Indice(n.corrente))
  }

  /** The registry position of the current record, -1 for none. */
  function Indice(c: Option<nat>): int
  {
    if c.None? then -1 else c.value
  }

  /** The loader (`so_carrega_programa`): the load address of a program, -1
      when it cannot be loaded. */
  function Carrega(programas: map<string, int>, nome: string): int
  {
    if nome in programas then programas[nome] else -1
  }

  /** `so_cria_processo`: a record with the next pid and the loader's
      address is appended to the registry and its pid to the ready queue. */
  function EfeitoCria(n: Nucleo, programas: map<string, int>, nome: string): (m: Nucleo)
    requires Consistente(n)
    ensures Consistente(m) && Progride(n, m) && m.corrente == n.corrente && m.area == n.area
    ensures Exclusivo(n) ==> Exclusivo(m)
  {
    var novo := Novo(|n.registro| + 1, Carrega(programas, nome));
    BloqueiosMais(n.registro, novo);
    n.(registro := n.registro + [novo], prontos := n.prontos + [|n.registro| + 1])
  }

  /** `so_salva_estado_da_cpu`. */
  function EfeitoSalva(n: Nucleo): (m: Nucleo)
    requires Consistente(n)
    ensures Consistente(m) && Progride(n, m) && m.corrente == n.corrente && m.area == n.area
    ensures m.prontos == n.prontos && m.erro == n.erro && m.es == n.es
    ensures m.corrente.Some? ==> m.registro[m.corrente.value].x == n.area.x
    ensures Exclusivo(n) ==> Exclusivo(m)
  {
    match n.corrente
    case None => n
    case Some(k) =>
      n.(registro := n.registro[k := n.registro[k].ComEstadoCpu(n.area.pc, n.area.a, n.area.x, n.area.complemento)])
  }

  /** `so_bloqueia_processo`. */
  function EfeitoBloqueia(n: Nucleo, tipo: TipoBloqueio, pidPrioridade: int): (m: Nucleo)
    requires Consistente(n) && n.corrente.Some?
    requires tipo != Nulo && (tipo == EsperandoProcesso ==> 1 <= pidPrioridade <= |n.registro|)
    ensures Consistente(m) && Progride(n, m) && m.corrente.None? && m.area == n.area
    ensures Exclusivo(n) ==> Exclusivo(m)
  {
    var k := n.corrente.value;
    n.(registro := n.registro[k := n.registro[k].Bloqueia(tipo, pidPrioridade)], corrente := None)
  }

  /** `so_trata_irq_reset`. */
  function EfeitoReset(n: Nucleo, programas: map<string, int>): (m: Nucleo)
    requires Consistente(n)
    ensures Consistente(m) && Progride(n, m)
    ensures SoExecuta(n.registro, -1) ==> Exclusivo(m)
  {
    var criado := EfeitoCria(n, programas, PROGRAMA_INIT).(corrente := Some(|n.registro|));
    var ender := Carrega(programas, PROGRAMA_INIT);
    if ender != END_CARGA_INIT then criado.(erro := true)
    else criado.(area := criado.area.(pc := ender, modo := Usuario))
  }

  /** `so_trata_irq_relogio`. */
  function EfeitoRelogio(n: Nucleo): (m: Nucleo)
    requires Consistente(n)
    ensures Consistente(m) && Progride(n, m) && m.corrente == n.corrente && m.area == n.area
    ensures m.prontos == n.prontos
    ensures Exclusivo(n) ==> Exclusivo(m)
  {
    var es := EscreveSe(EscreveSe(n.es, D_RELOGIO_INTERRUPCAO, 0), D_RELOGIO_TIMER, INTERVALO_INTERRUPCAO);
    var erro := n.erro || D_RELOGIO_INTERRUPCAO !in n.es || D_RELOGIO_TIMER !in n.es;
    match n.corrente
    case None => n.(es := es, erro := erro)
    case Some(k) =>
      n.(es := es, erro := erro, registro := n.registro[k := n.registro[k].(quantum := n.registro[k].quantum - 1)])
  }

  /** `so_chamada_le`. */
  function EfeitoLe(n: Nucleo): (m: Nucleo)
    requires Consistente(n) && n.corrente.Some?
    ensures Consistente(m) && Progride(n, m) && (m.corrente == n.corrente || m.corrente.None?) && m.area == n.area
    ensures Exclusivo(n) ==> Exclusivo(m)
  {
    var k := n.corrente.value;
    var estado := PegaTerminal(n.registro[k].pid, TERM_TECLADO_OK);
    var dado := PegaTerminal(n.registro[k].pid, TERM_TECLADO);
    if estado !in n.es then n.(erro := true)
    else if n.es[estado] == 0 then EfeitoBloqueia(n, EsperandoEntrada, -1)
    else if dado !in n.es then n.(erro := true)
    else n.(registro := n.registro[k := n.registro[k].(a := n.es[dado])])
  }

  /** `so_chamada_escr`; the datum is the hand-off X. */
  function EfeitoEscr(n: Nucleo): (m: Nucleo)
    requires Consistente(n) && n.corrente.Some?
    ensures Consistente(m) && Progride(n, m) && (m.corrente == n.corrente || m.corrente.None?) && m.area == n.area
    ensures Exclusivo(n) ==> Exclusivo(m)
  {
    var k := n.corrente.value;
    var estado := PegaTerminal(n.registro[k].pid, TERM_TELA_OK);
    var tela := PegaTerminal(n.registro[k].pid, TERM_TELA);
    if estado !in n.es then n.(erro := true)
    else if n.es[estado] == 0 then EfeitoBloqueia(n, EsperandoSaida, -1)
    else if tela !in n.es then n.(erro := true)
    else n.(es := n.es[tela := n.area.x], registro := n.registro[k := n.registro[k].(a := 0)])
  }

  /** `so_chamada_cria_proc`; the program name is read at the caller's X. */
  function EfeitoCriaProc(n: Nucleo, mem: map<int, int>, programas: map<string, int>): (m: Nucleo)
    requires Consistente(n) && n.corrente.Some?
    ensures Consistente(m) && Progride(n, m) && (m.corrente == n.corrente || m.corrente.None?) && m.area == n.area
    ensures Exclusivo(n) ==> Exclusivo(m)
  {
    var k := n.corrente.value;
    match CadeiaEm(mem, n.registro[k].x, TAM_NOME)
    case None => n.(registro := n.registro[k := n.registro[k].(a := -1)])
    case Some(nome) =>
      var criado := EfeitoCria(n, programas, nome);
      criado.(registro := criado.registro[k := criado.registro[k].(a := |n.registro| + 1)])
  }

  /** `so_chamada_mata_proc`; the target is the caller for X = 0. */
  function EfeitoMataProc(n: Nucleo): (m: Nucleo)
    requires Consistente(n)
    requires n.corrente.Some? ==> var x := n.registro[n.corrente.value].x; x == 0 || 1 <= x <= |n.registro|
    ensures Consistente(m) && Progride(n, m) && m.corrente == n.corrente && m.area == n.area
    ensures Exclusivo(n) ==> Exclusivo(m)
  {
    match n.corrente
    case None => n
    case Some(k) =>
      var x := n.registro[k].x;
      var alvo := if x == 0 then k else x - 1;
      n.(registro := n.registro[alvo := n.registro[alvo].(a := 0, estado := Terminado)])
  }

  /** `so_chamada_espera_proc`. */
  function EfeitoEsperaProc(n: Nucleo): (m: Nucleo)
    requires Consistente(n) && n.corrente.Some?
    ensures Consistente(m) && Progride(n, m) && (m.corrente == n.corrente || m.corrente.None?) && m.area == n.area
    ensures Exclusivo(n) ==> Exclusivo(m)
  {
    var k := n.corrente.value;
    var alvo := n.registro[k].x;
    if !(1 <= alvo <= |n.registro|) || alvo == n.registro[k].pid then
      n.(registro := n.registro[k := n.registro[k].(a := -1)])
    else if n.registro[alvo - 1].estado == Terminado then
      n.(registro := n.registro[k := n.registro[k].(a := 0)])
    else EfeitoBloqueia(n, EsperandoProcesso, alvo)
  }

  /** A system call can be served: every call but MATA_PROC needs a current
      process, and MATA_PROC names itself (0) or a registered pid. */
  predicate ChamadaDefinida(n: Nucleo)
  {
    && (n.area.a in CHAMADAS - {SO_MATA_PROC} ==> n.corrente.Some?)
    && (n.area.a == SO_MATA_PROC && n.corrente.Some? && n.corrente.value < |n.registro| ==>
          var x := n.registro[n.corrente.value].x; x == 0 || 1 <= x <= |n.registro|)
  }

  /** `so_trata_irq_chamada_sistema`: the call named by the hand-off A. */
  function EfeitoChamada(n: Nucleo, mem: map<int, int>, programas: map<string, int>): (m: Nucleo)
    requires Consistente(n) && ChamadaDefinida(n)
    ensures Consistente(m) && Progride(n, m) && (m.corrente == n.corrente || m.corrente.None?) && m.area == n.area
    ensures Exclusivo(n) ==> Exclusivo(m)
  {
    var id := n.area.a;
    if id == SO_LE then EfeitoLe(n)
    else if id == SO_ESCR then EfeitoEscr(n)
    else if id == SO_CRIA_PROC then EfeitoCriaProc(n, mem, programas)
    else if id == SO_MATA_PROC then EfeitoMataProc(n)
    else if id == SO_ESPERA_PROC then EfeitoEsperaProc(n)
    else n.(erro := true)
  }

  /** `so_trata_irq`. */
  function EfeitoIrq(n: Nucleo, irq: int, mem: map<int, int>, programas: map<string, int>): (m: Nucleo)
    requires Consistente(n) && (irq == IRQ_SISTEMA ==> ChamadaDefinida(n))
    ensures Consistente(m) && Progride(n, m)
    ensures Exclusivo(n) && (irq == IRQ_RESET ==> SoExecuta(n.registro, -1)) ==> Exclusivo(m)
  {
    if irq == IRQ_RESET then EfeitoReset(n, programas)
    else if irq == IRQ_SISTEMA then EfeitoChamada(n, mem, programas)
    else if irq == IRQ_RELOGIO then EfeitoRelogio(n)
    else n.(erro := true)
  }

  /** `so_trata_pendencias`: the scan of the whole registry. */
  function EfeitoPendencias(n: Nucleo): (m: Nucleo)
    requires Consistente(n)
    ensures Consistente(m) && Progride(n, m) && m.corrente == n.corrente && m.area == n.area
    ensures Exclusivo(n) ==> Exclusivo(m)
  {
    var v := Varredura(n.registro, n.es, n.prontos, n.erro);
    VarreMantem(v, -1);
    var w := Varre(v, |n.registro|);
    VarreMantem(v, Indice(n.corrente));
    n.(registro := w.regs, es := w.es, prontos := w.prontos, erro := w.erro)
  }

  /** `so_escalona`. */
  function EfeitoEscalona(n: Nucleo): (m: Nucleo)
    requires Consistente(n)
    ensures Consistente(m) && Progride(n, m) && m.area == n.area
    ensures m.corrente.Some? ==> m.registro[m.corrente.value].estado == Executando
    ensures Exclusivo(n) ==> Exclusivo(m)
  {
    EscalaCorreta(n.registro, Indice(n.corrente));
    var (regs, c) := Escala(n.registro, Indice(n.corrente));
    n.(registro := regs, corrente := if c < 0 then None else Some(c))
  }

  /** `so_despacha`: the new state and the answer. */
  function EfeitoDespacha(n: Nucleo): (Nucleo, int)
    requires n.corrente.Some? ==> n.corrente.value < |n.registro|
  {
    match n.corrente
    case None => (n, 1)
    case Some(k) =>
      if n.erro then (n, 1)
      else
        var p := n.registro[k];
        (n.(area := n.area.(pc := p.pc, a := p.a, x := p.x, complemento := p.complemento)), 0)
  }

  /** What an entry needs of the state it is entered in: the system call it
      serves, once the interrupted registers are saved, can be served. */
  predicate EntradaDefinida(n: Nucleo, irq: int)
    requires Consistente(n)
  {
    irq == IRQ_SISTEMA ==> ChamadaDefinida(EfeitoSalva(n))
  }

  /** `so_trata_interrupcao`: save, serve, resolve, schedule, dispatch. */
  function EfeitoEntrada(n: Nucleo, irq: int, mem: map<int, int>, programas: map<string, int>): (Nucleo, int)
    requires Consistente(n) && EntradaDefinida(n, irq)
  {
    EfeitoDespacha(EfeitoEscalona(EfeitoPendencias(EfeitoIrq(EfeitoSalva(n), irq, mem, programas))))
  }

  /** Steps compose: what two steps keep, their sequence keeps. */
  lemma ProgrideTransitivo(a: Nucleo, b: Nucleo, c: Nucleo)
    requires Progride(a, b) && Progride(b, c)
    ensures Progride(a, c)
  {
  }

  /** An entry keeps the kernel invariant; afterwards the current record,
      if any, runs and is the only running one (given that only it ran
      before and nothing ran before a reset); the answer is 1 exactly when
      the error flag is set or nothing can run, and 0 leaves the current
      record's registers in the hand-off area; no record is lost or revived,
      the ready queue only grows and the error flag stays set. */
  lemma EntradaPreserva(n: Nucleo, irq: int, mem: map<int, int>, programas: map<string, int>)
    requires Consistente(n) && EntradaDefinida(n, irq)
    ensures var (m, r) := EfeitoEntrada(n, irq, mem, programas);
            && Consistente(m)
            && r == (if m.erro || m.corrente.None? then 1 else 0)
            && (m.corrente.Some? ==> m.registro[m.corrente.value].estado == Executando)
            && (r == 0 ==> var p := m.registro[m.corrente.value];
                           m.area.pc == p.pc && m.area.a == p.a && m.area.x == p.x && m.area.complemento == p.complemento)
            && (Exclusivo(n) && (irq == IRQ_RESET ==> SoExecuta(n.registro, -1)) ==> Exclusivo(m))
            && Progride(n, m)
  {
    var s := EfeitoSalva(n);
    var i := EfeitoIrq(s, irq, mem, programas);
    var p := EfeitoPendencias(i);
    var e := EfeitoEscalona(p);
    EscalonaDespacha(p);
    assert EfeitoEntrada(n, irq, mem, programas) == EfeitoDespacha(e);
    ProgrideTransitivo(n, s, i);
    ProgrideTransitivo(n, i, p);
    ProgrideTransitivo(n, p, e);
    if irq == IRQ_RESET && SoExecuta(n.registro, -1) {
      assert SoExecuta(s.registro, -1);
    }
  }

  /** The reset handler on the empty kernel creates pid 1 as the current
      process; the error flag is set unless the bootstrap program loads at
      its address, and otherwise the CPU is to resume there in user mode. */
  lemma ResetVazio(n: Nucleo, programas: map<string, int>)
    requires n.registro == [] && n.prontos == [] && n.corrente.None? && !n.erro
    ensures var pc := Carrega(programas, PROGRAMA_INIT);
            var i := EfeitoReset(n, programas);
            && i.registro == [Novo(1, pc)] && i.corrente == Some(0) && i.prontos == [1] && i.es == n.es
            && (pc == END_CARGA_INIT ==> !i.erro && i.area == n.area.(pc := END_CARGA_INIT, modo := Usuario))
            && (pc != END_CARGA_INIT ==> i.erro && i.area == n.area)
  {
  }

  /** Boot: a reset entry into the empty kernel creates pid 1 from the
      bootstrap program and runs it; when the program loads at its address
      the CPU resumes at that address in user mode with cleared registers,
      otherwise the error flag is set and the answer is 1. */
  lemma EntradaArranque(n: Nucleo, mem: map<int, int>, programas: map<string, int>)
    requires n.registro == [] && n.prontos == [] && n.corrente.None? && !n.erro
    ensures var pc := Carrega(programas, PROGRAMA_INIT);
            var (m, r) := EfeitoEntrada(n, IRQ_RESET, mem, programas);
            && m.registro == [Novo(1, pc).(estado := Executando)]
            && m.prontos == [1] && m.corrente == Some(0) && m.es == n.es
            && (pc == END_CARGA_INIT ==>
                  r == 0 && !m.erro && m.area == n.area.(pc := END_CARGA_INIT, a := 0, x := 0, complemento := 0, modo := Usuario))
            && (pc != END_CARGA_INIT ==> r == 1 && m.erro && m.area == n.area)
  {
    var pc := Carrega(programas, PROGRAMA_INIT);
    var i := EfeitoReset(n, programas);
    ResetVazio(n, programas);
    assert EfeitoIrq(EfeitoSalva(n), IRQ_RESET, mem, programas) == i;
    VarreSemBloqueio(Varredura(i.registro, i.es, i.prontos, i.erro), 1);
    EscalonaDespacha(i);
    assert PrimeiroPronto(i.registro) == Some(0);
    assert i.registro[0 := Novo(1, pc).(estado := Executando)] == [Novo(1, pc).(estado := Executando)];
  }

  /** The pendency step does what the per-record reference says: every
      record is resolved on the state before the scan, the freed pids join
      the ready queue in registry order, and the error flag is raised
      exactly by a failing device access. */
  lemma PendenciasResolve(t: Nucleo)
    requires Consistente(t)
    ensures var v := Varredura(t.registro, t.es, t.prontos, t.erro);
            var p := EfeitoPendencias(t);
            && p.registro == seq(|v.regs|, k requires 0 <= k < |v.regs| => Resolvido(v, k))
            && p.prontos == t.prontos + Liberados(v, |v.regs|)
            && p.erro == (v.erro || exists k | 0 <= k < |v.regs| :: FalhaEm(v, k))
  {
    var v := Varredura(t.registro, t.es, t.prontos, t.erro);
    VarreResolve(v, |v.regs|);
  }

  /** A scan that finds nothing blocked changes nothing. */
  lemma {:induction false} VarreSemBloqueio(v: Varredura, n: nat)
    requires n <= |v.regs| && forall k | 0 <= k < |v.regs| :: v.regs[k].estado != Bloqueado
    ensures Varre(v, n) == v
  {
    if n > 0 {
      VarreSemBloqueio(v, n - 1);
    }
  }

  /** The last two steps of an entry: the registry is scheduled from the
      current process, the ready queue and the error flag are kept, and the
      answer is 1 exactly when the error flag is set or nothing runs. */
  lemma EscalonaDespacha(p: Nucleo)
    requires Consistente(p)
    ensures var (m, r) := EfeitoDespacha(EfeitoEscalona(p));
            && (m.registro, Indice(m.corrente)) == Escala(p.registro, Indice(p.corrente))
            && m.prontos == p.prontos && m.erro == p.erro && m.es == p.es
            && r == (if m.erro || m.corrente.None? then 1 else 0)
            && (r == 1 ==> m.area == p.area)
            && (r == 0 ==> var q := m.registro[m.corrente.value];
                           m.area == p.area.(pc := q.pc, a := q.a, x := q.x, complemento := q.complemento))
  {
    var e := EfeitoEscalona(p);
    assert (e.registro, Indice(e.corrente)) == Escala(p.registro, Indice(p.corrente));
  }

  /** A clock entry: the clock handler (`t`) is followed by that resolution,
      and the resolved registry is scheduled from the interrupted process. */
  lemma EntradaRelogio(n: Nucleo, mem: map<int, int>, programas: map<string, int>)
    requires Consistente(n)
    ensures var t := EfeitoRelogio(EfeitoSalva(n));
            var v := Varredura(t.registro, t.es, t.prontos, t.erro);
            var (m, r) := EfeitoEntrada(n, IRQ_RELOGIO, mem, programas);
            && m.prontos == n.prontos + Liberados(v, |v.regs|)
            && m.erro == (v.erro || exists k | 0 <= k < |v.regs| :: FalhaEm(v, k))
            && (m.registro, Indice(m.corrente))
               == Escala(seq(|v.regs|, k requires 0 <= k < |v.regs| => Resolvido(v, k)), Indice(n.corrente))
            && r == (if m.erro || m.corrente.None? then 1 else 0)
  {
    var s := EfeitoSalva(n);
    var t := EfeitoRelogio(s);
    assert EfeitoIrq(s, IRQ_RELOGIO, mem, programas) == t;
    PendenciasResolve(t);
    EscalonaDespacha(EfeitoPendencias(t));
  }

  /** One clock tick with two processes blocked on input and nothing
      running: only pid 1's keyboard is ready, so exactly pid 1 is freed
      with the keyboard datum in A, queued, scheduled and resumed; pid 2
      stays blocked. */
  lemma TickLiberaUm(r1: Registro, r2: Registro, es: map<int, int>, prontos: seq<int>, area: AreaTroca,
                     mem: map<int, int>, programas: map<string, int>)
    requires r1.pid == 1 && r2.pid == 2
    requires r1.estado == Bloqueado && r1.tipoBloqueio == EsperandoEntrada
    requires r2.estado == Bloqueado && r2.tipoBloqueio == EsperandoEntrada
    requires D_RELOGIO_TIMER in es && D_RELOGIO_INTERRUPCAO in es
    requires PegaTerminal(1, TERM_TECLADO_OK) in es && es[PegaTerminal(1, TERM_TECLADO_OK)] != 0
    requires PegaTerminal(1, TERM_TECLADO) in es
    requires PegaTerminal(2, TERM_TECLADO_OK) in es && es[PegaTerminal(2, TERM_TECLADO_OK)] == 0
    ensures var dado := es[PegaTerminal(1, TERM_TECLADO)];
            var (m, r) := EfeitoEntrada(Nucleo([r1, r2], prontos, None, false, es, area), IRQ_RELOGIO, mem, programas);
            && m.registro == [r1.(a := dado, estado := Executando, tipoBloqueio := Nulo), r2]
            && m.prontos == prontos + [1] && m.corrente == Some(0) && !m.erro && r == 0
            && m.area == area.(pc := r1.pc, a := dado, x := r1.x, complemento := r1.complemento)
  {
    var n := Nucleo([r1, r2], prontos, None, false, es, area);
    var dado := es[PegaTerminal(1, TERM_TECLADO)];
    var i := EfeitoIrq(EfeitoSalva(n), IRQ_RELOGIO, mem, programas);
    assert i.registro == [r1, r2] && !i.erro && i.corrente.None?;
    assert i.es[PegaTerminal(1, TERM_TECLADO_OK)] != 0 && i.es[PegaTerminal(1, TERM_TECLADO)] == dado;
    assert i.es[PegaTerminal(2, TERM_TECLADO_OK)] == 0;
    var v := Varredura(i.registro, i.es, i.prontos, i.erro);
    var u := Passo(v, 0);
    assert u.regs == [r1.(a := dado, estado := Pronto, tipoBloqueio := Nulo), r2] && u.prontos == prontos + [1];
    var w := Passo(u, 1);
    assert w == u;
    assert Varre(v, 2) == w by {
      assert Varre(v, 1) == u;
    }
    var p := EfeitoPendencias(i);
    assert p.registro == u.regs && p.prontos == u.prontos && !p.erro;
  }

  /** The operating system (`so_t`).  The process table is an arena of record
      values indexed by pid - 1, the ready queue a list of pids and the
      current process an arena index; the device registers are a map, the
      hand-off slots a value, and the memory the kernel reads strings from
      and the program loader (the load address of each program it can load)
      are given at creation. */
  class Sistema {
    const mem: map<int, int>
    const programas: map<string, int>
    var registro: seq<Registro>
    var prontos: seq<int>
    var corrente: Option<nat>
    var erroInterno: bool
    var es: map<int, int>
    var area: AreaTroca

    /** The kernel invariant holds of the object's state. */
    predicate Valid()
      reads this
    {
      Consistente(Estado())
    }

    /** The registry position of the current record, -1 for none. */
    function IndiceCorrente(): int
      reads this
    {
      Indice(corrente)
    }

    /** Everything the pendency resolver reads and writes. */
    function Fotografia(): Varredura
      reads this
    {
      Varredura(registro, es, prontos, erroInterno)
    }

    /** The state as a value. */
    function Estado(): Nucleo
      reads this
    {
      Nucleo(registro, prontos, corrente, erroInterno, es, area)
    }

    /** `so_cria`, as far as the process state goes. */
    constructor Cria(mem: map<int, int>, programas: map<string, int>, es: map<int, int>, area: AreaTroca)
      ensures Valid()
      ensures this.mem == mem && this.programas == programas && this.es == es && this.area == area
      ensures registro == [] && prontos == [] && corrente.None? && !erroInterno
    {
      this.mem := mem;
      this.programas := programas;
      registro := [];
      prontos := [];
      corrente := None;
      erroInterno := false;
      this.es := es;
      this.area := area;
    }

    /** `so_cria_processo`: the new record gets pid = registry count + 1 and
        the loader's address as PC (-1 included), and is appended to both
        the registry and the ready queue. */
    method CriaProcesso(nome: string) returns (pid: int)
      requires Valid()
      modifies this
      ensures Valid()
      ensures pid == old(|registro|) + 1
      ensures registro == old(registro) + [Novo(pid, Carrega(programas, nome))]
      ensures prontos == old(prontos) + [pid]
      ensures corrente == old(corrente) && erroInterno == old(erroInterno) && es == old(es) && area == old(area)
      ensures Estado() == EfeitoCria(old(Estado()), programas, nome)
    {
      var pc := Carrega(programas, nome);
      pid := |registro| + 1;
      BloqueiosMais(registro, Novo(pid, pc));
      registro := registro + [Novo(pid, pc)];
      prontos := prontos + [pid];
    }

    /** `busca_processo` on the registry: the first record with this pid. */
    method BuscaProcesso(pid: int) returns (r: Option<nat>)
      ensures r.None? <==> forall i | 0 <= i < |registro| :: registro[i].pid != pid
      ensures r.Some? ==> r.value < |registro| && registro[r.value].pid == pid
                          && forall i | 0 <= i < r.value :: registro[i].pid != pid
    {
      var i := 0;
      while i < |registro|
        invariant 0 <= i <= |registro|
        invariant forall j | 0 <= j < i :: registro[j].pid != pid
      {
        if registro[i].pid == pid {
          return Some(i);
        }
        i := i + 1;
      }
      return None;
    }

    /** `so_bloqueia_processo`: the current record is blocked (when it was
        running) and there is no current record any more. */
    method BloqueiaProcesso(tipo: TipoBloqueio, pidPrioridade: int)
      requires Valid() && corrente.Some?
      requires tipo != Nulo && (tipo == EsperandoProcesso ==> 1 <= pidPrioridade <= |registro|)
      modifies this
      ensures Valid() && corrente.None?
      ensures registro == old(registro[corrente.value := registro[corrente.value].Bloqueia(tipo, pidPrioridade)])
      ensures prontos == old(prontos) && erroInterno == old(erroInterno) && es == old(es) && area == old(area)
      ensures Estado() == EfeitoBloqueia(old(Estado()), tipo, pidPrioridade)
    {
      var k := corrente.value;
      registro := registro[k := registro[k].Bloqueia(tipo, pidPrioridade)];
      corrente := None;
    }

    /** `so_desbloqueia_processo`: record `k` is unblocked (when it was
        blocked) and its pid is appended to the ready queue in any case. */
    method DesbloqueiaProcesso(k: nat)
      requires Valid() && k < |registro|
      modifies this
      ensures Valid()
      ensures Fotografia() == Libera(old(Fotografia()), k, old(registro[k]))
      ensures corrente == old(corrente) && area == old(area)
    {
      prontos := prontos + [registro[k].pid];
      registro := registro[k := registro[k].Desbloqueia()];
    }

    /** `so_salva_estado_da_cpu`: the hand-off registers go into the current
        record; without one nothing happens. */
    method SalvaEstadoDaCpu()
      requires Valid()
      modifies this
      ensures Valid()
      ensures registro == if old(corrente).None? then old(registro)
                          else old(registro[corrente.value :=
                                 registro[corrente.value].ComEstadoCpu(area.pc, area.a, area.x, area.complemento)])
      ensures corrente == old(corrente) && prontos == old(prontos) && erroInterno == old(erroInterno)
      ensures es == old(es) && area == old(area)
      ensures Estado() == EfeitoSalva(old(Estado()))
    {
      if corrente.None? {
        return;
      }
      var k := corrente.value;
      registro := registro[k := registro[k].ComEstadoCpu(area.pc, area.a, area.x, area.complemento)];
    }

    /** `so_trata_pendencia_entrada` for record `k`. */
    method TrataPendenciaEntrada(k: nat)
      requires Valid() && k < |registro|
      modifies this
      ensures Valid()
      ensures Fotografia() == PendenciaEntrada(old(Fotografia()), k)
      ensures corrente == old(corrente) && area == old(area)
    {
      var estado := PegaTerminal(registro[k].pid, TERM_TECLADO_OK);
      if estado !in es {
        erroInterno := true;
        return;
      }
      if es[estado] == 0 {
        return;
      }
      var dado := PegaTerminal(registro[k].pid, TERM_TECLADO);
      if dado !in es {
        erroInterno := true;
        return;
      }
      registro := registro[k := registro[k].(a := es[dado])];
      DesbloqueiaProcesso(k);
    }

    /** `so_trata_pendencia_saida` for record `k`. */
    method TrataPendenciaSaida(k: nat)
      requires Valid() && k < |registro|
      modifies this
      ensures Valid()
      ensures Fotografia() == PendenciaSaida(old(Fotografia()), k)
      ensures corrente == old(corrente) && area == old(area)
    {
      var estado := PegaTerminal(registro[k].pid, TERM_TELA_OK);
      if estado !in es {
        erroInterno := true;
        return;
      }
      if es[estado] == 0 {
        return;
      }
      var dado := registro[k].x;
      var tela := PegaTerminal(registro[k].pid, TERM_TELA);
      if tela !in es {
        erroInterno := true;
        return;
      }
      es := es[tela := dado];
      registro := registro[k := registro[k].(a := 0)];
      DesbloqueiaProcesso(k);
    }

    /** `so_trata_pendencia_processo` for record `k`; the waited-for pid must
        be registered, since the source reads the target's state before
        testing it for null. */
    method TrataPendenciaProcesso(k: nat)
      requires Valid() && k < |registro|
      requires 1 <= registro[k].pidPrioridade <= |registro|
      modifies this
      ensures Valid()
      ensures Fotografia() == PendenciaProcesso(old(Fotografia()), k)
      ensures corrente == old(corrente) && area == old(area)
    {
      var pid := registro[k].pidPrioridade;
      assert registro[pid - 1].pid == pid;
      var alvo := BuscaProcesso(pid);
      if registro[alvo.value].estado == Terminado {
        DesbloqueiaProcesso(k);
      }
    }

    /** `so_trata_pendencias`: one pass over the registry in order, handling
        each blocked record by its reason. */
    method TrataPendencias()
      requires Valid()
      modifies this
      ensures Valid()
      ensures Fotografia() == Varre(old(Fotografia()), old(|registro|))
      ensures corrente == old(corrente) && area == old(area)
      ensures Estado() == EfeitoPendencias(old(Estado()))
    {
      ghost var v0 := Fotografia();
      var i := 0;
      while i < |registro|
        invariant 0 <= i <= |registro| == |v0.regs|
        invariant Valid()
        invariant Fotografia() == Varre(v0, i)
        invariant corrente == old(corrente) && area == old(area)
      {
        if registro[i].estado == Bloqueado {
          var bloqueio := registro[i].tipoBloqueio;
          if bloqueio == EsperandoEntrada {
            TrataPendenciaEntrada(i);
          } else if bloqueio == EsperandoSaida {
            TrataPendenciaSaida(i);
          } else if bloqueio == EsperandoProcesso {
            assert BemBloqueado(registro[i], |registro|);
            TrataPendenciaProcesso(i);
          }
        }
        i := i + 1;
      }
    }

    /** `so_escalona`: a running current record is kept; otherwise the first
        ready record of the registry runs, or there is no current record. */
    method Escalona()
      requires Valid()
      modifies this
      ensures Valid()
      ensures (registro, IndiceCorrente()) == old(Escala(registro, IndiceCorrente()))
      ensures prontos == old(prontos) && erroInterno == old(erroInterno) && es == old(es) && area == old(area)
      ensures corrente.Some? ==> registro[corrente.value].estado == Executando
      ensures Estado() == EfeitoEscalona(old(Estado()))
    {
      EscalaCorreta(registro, IndiceCorrente());
      if corrente.None? || registro[corrente.value].estado != Executando {
        var i := 0;
        while i < |registro|
          invariant 0 <= i <= |registro|
          invariant forall j | 0 <= j < i :: registro[j].estado != Pronto
        {
          if registro[i].estado == Pronto {
            corrente := Some(i);
            registro := registro[i := registro[i].(estado := Executando)];
            return;
          }
          i := i + 1;
        }
        corrente := None;
      }
    }

    /** `so_despacha`: with the error flag set or no current record the
        answer is 1 and nothing is written; otherwise the current record's
        registers go to the hand-off slots and the answer is 0. */
    method Despacha() returns (r: int)
      requires corrente.Some? ==> corrente.value < |registro|
      requires !erroInterno && corrente.Some? ==>
                 corrente.value < |registro| && registro[corrente.value].estado == Executando
      modifies this`area
      ensures r == if erroInterno || corrente.None? then 1 else 0
      ensures r == 1 ==> area == old(area)
      ensures r == 0 ==> var p := registro[corrente.value];
                         area == old(area).(pc := p.pc, a := p.a, x := p.x, complemento := p.complemento)
      ensures (Estado(), r) == EfeitoDespacha(old(Estado()))
    {
      if erroInterno {
        return 1;
      }
      if corrente.None? {
        return 1;
      }
      var p := registro[corrente.value];
      area := area.(pc := p.pc, a := p.a, x := p.x, complemento := p.complemento);
      assert p.estado == Executando;
      return 0;
    }

    /** `so_trata_irq_reset`: the init process is created and becomes the
        current record; unless it was loaded at its fixed address the error
        flag is set, otherwise the hand-off PC is its address and the mode is
        user. */
    method TrataIrqReset()
      requires Valid()
      modifies this
      ensures Valid()
      ensures registro == old(registro) + [Novo(old(|registro|) + 1, Carrega(programas, PROGRAMA_INIT))]
      ensures prontos == old(prontos) + [old(|registro|) + 1]
      ensures corrente == Some(old(|registro|))
      ensures var pc := Carrega(programas, PROGRAMA_INIT);
              && erroInterno == (old(erroInterno) || pc != END_CARGA_INIT)
              && area == if pc != END_CARGA_INIT then old(area) else old(area).(pc := pc, modo := Usuario)
      ensures es == old(es)
      ensures Estado() == EfeitoReset(old(Estado()), programas)
    {
      var pid := CriaProcesso(PROGRAMA_INIT);
      corrente := Some(pid - 1);
      var ender := registro[pid - 1].pc;
      if ender != END_CARGA_INIT {
        erroInterno := true;
        return;
      }
      area := area.(pc := ender);
      area := area.(modo := Usuario);
    }

    /** `so_trata_irq_err_cpu`: only the error flag is set. */
    method TrataIrqErrCpu()
      modifies this`erroInterno
      ensures erroInterno
      ensures Estado() == old(Estado()).(erro := true)
    {
      erroInterno := true;
    }

    /** `so_trata_irq_relogio`: the clock's interrupt flag is cleared and its
        timer rearmed (a missing device sets the error flag), and the current
        record's quantum drops by one. */
    method TrataIrqRelogio()
      requires Valid()
      modifies this
      ensures Valid()
      ensures es == EscreveSe(EscreveSe(old(es), D_RELOGIO_INTERRUPCAO, 0), D_RELOGIO_TIMER, INTERVALO_INTERRUPCAO)
      ensures erroInterno == (old(erroInterno) || D_RELOGIO_INTERRUPCAO !in old(es) || D_RELOGIO_TIMER !in old(es))
      ensures registro == if old(corrente).None? then old(registro)
                          else old(registro[corrente.value := registro[corrente.value].(quantum := registro[corrente.value].quantum - 1)])
      ensures corrente == old(corrente) && prontos == old(prontos) && area == old(area)
      ensures Estado() == EfeitoRelogio(old(Estado()))
    {
      var e1 := D_RELOGIO_INTERRUPCAO in es;
      es := EscreveSe(es, D_RELOGIO_INTERRUPCAO, 0);
      var e2 := D_RELOGIO_TIMER in es;
      es := EscreveSe(es, D_RELOGIO_TIMER, INTERVALO_INTERRUPCAO);
      if !e1 || !e2 {
        erroInterno := true;
      }
      if corrente.Some? {
        var k := corrente.value;
        registro := registro[k := registro[k].(quantum := registro[k].quantum - 1)];
      }
    }

    /** `so_trata_irq_desconhecida`: only the error flag is set. */
    method TrataIrqDesconhecida(irq: int)
      modifies this`erroInterno
      ensures erroInterno
      ensures Estado() == old(Estado()).(erro := true)
    {
      erroInterno := true;
    }

    /** `so_chamada_le`: with the keyboard status at zero the caller blocks
        for input; with a ready keyboard its A gets the datum; a missing
        device sets the error flag. */
    method ChamadaLe()
      requires Valid() && corrente.Some?
      modifies this
      ensures Valid()
      ensures var k := old(corrente.value);
              var r := old(registro[k]);
              var estado := PegaTerminal(r.pid, TERM_TECLADO_OK);
              var dado := PegaTerminal(r.pid, TERM_TECLADO);
              if estado !in es then
                erroInterno && corrente == old(corrente) && registro == old(registro)
              else if es[estado] == 0 then
                erroInterno == old(erroInterno) && corrente.None?
                && registro == old(registro)[k := r.Bloqueia(EsperandoEntrada, -1)]
              else if dado !in es then
                erroInterno && corrente == old(corrente) && registro == old(registro)
              else
                erroInterno == old(erroInterno) && corrente == old(corrente)
                && registro == old(registro)[k := r.(a := es[dado])]
      ensures es == old(es) && prontos == old(prontos) && area == old(area)
      ensures Estado() == EfeitoLe(old(Estado()))
    {
      var k := corrente.value;
      var estado := PegaTerminal(registro[k].pid, TERM_TECLADO_OK);
      if estado !in es {
        erroInterno := true;
        return;
      }
      if es[estado] == 0 {
        BloqueiaProcesso(EsperandoEntrada, -1);
        return;
      }
      var dado := PegaTerminal(registro[k].pid, TERM_TECLADO);
      if dado !in es {
        erroInterno := true;
        return;
      }
      registro := registro[k := registro[k].(a := es[dado])];
    }

    /** `so_chamada_escr`: with the screen status at zero the caller blocks
        for output; with a ready screen the hand-off X is written to it and
        the caller's A becomes 0; a missing device sets the error flag. */
    method ChamadaEscr()
      requires Valid() && corrente.Some?
      modifies this
      ensures Valid()
      ensures var k := old(corrente.value);
              var r := old(registro[k]);
              var estado := PegaTerminal(r.pid, TERM_TELA_OK);
              var tela := PegaTerminal(r.pid, TERM_TELA);
              if estado !in old(es) then
                erroInterno && corrente == old(corrente) && registro == old(registro) && es == old(es)
              else if old(es)[estado] == 0 then
                erroInterno == old(erroInterno) && corrente.None? && es == old(es)
                && registro == old(registro)[k := r.Bloqueia(EsperandoSaida, -1)]
              else if tela !in old(es) then
                erroInterno && corrente == old(corrente) && registro == old(registro) && es == old(es)
              else
                erroInterno == old(erroInterno) && corrente == old(corrente)
                && es == old(es)[tela := old(area).x]
                && registro == old(registro)[k := r.(a := 0)]
      ensures prontos == old(prontos) && area == old(area)
      ensures Estado() == EfeitoEscr(old(Estado()))
    {
      var k := corrente.value;
      var estado := PegaTerminal(registro[k].pid, TERM_TELA_OK);
      if estado !in es {
        erroInterno := true;
        return;
      }
      if es[estado] == 0 {
        BloqueiaProcesso(EsperandoSaida, -1);
        return;
      }
      var dado := area.x;
      var tela := PegaTerminal(registro[k].pid, TERM_TELA);
      if tela !in es {
        erroInterno := true;
        return;
      }
      es := es[tela := dado];
      registro := registro[k := registro[k].(a := 0)];
    }

    /** `so_chamada_cria_proc`: when the program name (at the caller's X)
        can be read, a process is created and the caller's A gets its pid,
        whatever the loader answered; otherwise the caller's A is -1. */
    method ChamadaCriaProc()
      requires Valid() && corrente.Some?
      modifies this
      ensures Valid()
      ensures var k := old(corrente.value);
              var n := old(|registro|);
              var nome := CadeiaEm(mem, old(registro[k].x), TAM_NOME);
              if nome.Some? then
                && registro == old(registro)[k := old(registro[k]).(a := n + 1)] + [Novo(n + 1, Carrega(programas, nome.value))]
                && prontos == old(prontos) + [n + 1]
              else
                registro == old(registro)[k := old(registro[k]).(a := -1)] && prontos == old(prontos)
      ensures corrente == old(corrente) && erroInterno == old(erroInterno) && es == old(es) && area == old(area)
      ensures Estado() == EfeitoCriaProc(old(Estado()), mem, programas)
    {
      var k := corrente.value;
      var enderProc := registro[k].x;
      var ok, nome := CopiaStrDaMem(TAM_NOME, mem, enderProc);
      if ok {
        var pid := CriaProcesso(nome);
        registro := registro[k := registro[k].(a := pid)];
        return;
      }
      registro := registro[k := registro[k].(a := -1)];
    }

    /** `so_chamada_mata_proc`: the process named by the caller's X (0 for
        the caller itself) gets A := 0 and is terminated; it stays in the
        registry.  A missing target is a null dereference in the source. */
    method ChamadaMataProc()
      requires Valid()
      requires corrente.Some? ==> var x := registro[corrente.value].x; x == 0 || 1 <= x <= |registro|
      modifies this
      ensures Valid()
      ensures old(corrente).None? ==> registro == old(registro)
      ensures old(corrente).Some? ==>
                var x := old(registro[corrente.value].x);
                var alvo := if x == 0 then old(corrente.value) else x - 1;
                registro == old(registro)[alvo := old(registro[alvo]).(a := 0, estado := Terminado)]
      ensures corrente == old(corrente) && prontos == old(prontos) && erroInterno == old(erroInterno)
      ensures es == old(es) && area == old(area)
      ensures Estado() == EfeitoMataProc(old(Estado()))
    {
      if corrente.Some? {
        var pid := registro[corrente.value].x;
        var alvo: Option<nat>;
        if pid == 0 {
          alvo := corrente;
        } else {
          assert registro[pid - 1].pid == pid;
          alvo := BuscaProcesso(pid);
        }
        var j := alvo.value;
        registro := registro[j := registro[j].(a := 0)];
        registro := registro[j := registro[j].(estado := Terminado)];
      }
    }

    /** `so_chamada_espera_proc`: waiting for a missing pid or for oneself
        gives A := -1, for a terminated process A := 0, and otherwise the
        caller blocks waiting for that pid. */
    method ChamadaEsperaProc()
      requires Valid() && corrente.Some?
      modifies this
      ensures Valid()
      ensures var k := old(corrente.value);
              var r := old(registro[k]);
              var alvo := r.x;
              if !(1 <= alvo <= old(|registro|)) || alvo == r.pid then
                corrente == old(corrente) && registro == old(registro)[k := r.(a := -1)]
              else if old(registro[alvo - 1].estado) == Terminado then
                corrente == old(corrente) && registro == old(registro)[k := r.(a := 0)]
              else
                corrente.None? && registro == old(registro)[k := r.Bloqueia(EsperandoProcesso, alvo)]
      ensures prontos == old(prontos) && erroInterno == old(erroInterno) && es == old(es) && area == old(area)
      ensures Estado() == EfeitoEsperaProc(old(Estado()))
    {
      var k := corrente.value;
      var pidAtual := registro[k].pid;
      var pid := registro[k].x;
      if 1 <= pid <= |registro| {
        assert registro[pid - 1].pid == pid;
      }
      var esperado := BuscaProcesso(pid);
      if esperado.None? || pid == pidAtual {
        registro := registro[k := registro[k].(a := -1)];
        return;
      }
      if registro[esperado.value].estado == Terminado {
        registro := registro[k := registro[k].(a := 0)];
      } else {
        BloqueiaProcesso(EsperandoProcesso, pid);
      }
    }

    /** `so_trata_irq_chamada_sistema`: the call named by the hand-off A is
        served by its handler; an unknown call only sets the error flag. */
    method TrataIrqChamadaSistema()
      requires Valid() && ChamadaDefinida(Estado())
      modifies this
      ensures Valid()
      ensures Estado() == EfeitoChamada(old(Estado()), mem, programas)
      ensures old(area.a) == SO_LE ==> Estado() == EfeitoLe(old(Estado()))
      ensures old(area.a) == SO_ESCR ==> Estado() == EfeitoEscr(old(Estado()))
      ensures old(area.a) == SO_CRIA_PROC ==> Estado() == EfeitoCriaProc(old(Estado()), mem, programas)
      ensures old(area.a) == SO_MATA_PROC ==> Estado() == EfeitoMataProc(old(Estado()))
      ensures old(area.a) == SO_ESPERA_PROC ==> Estado() == EfeitoEsperaProc(old(Estado()))
      ensures old(area.a) !in CHAMADAS ==> Estado() == old(Estado()).(erro := true)
    {
      var idChamada := area.a;
      if idChamada == SO_LE {
        ChamadaLe();
      } else if idChamada == SO_ESCR {
        ChamadaEscr();
      } else if idChamada == SO_CRIA_PROC {
        ChamadaCriaProc();
      } else if idChamada == SO_MATA_PROC {
        ChamadaMataProc();
      } else if idChamada == SO_ESPERA_PROC {
        ChamadaEsperaProc();
      } else {
        erroInterno := true;
      }
    }

    /** `so_trata_irq`: routing by interrupt.  A reset creates the init
        process with the next pid and makes it current; a clock interrupt
        rearms the timer and lowers the current record's quantum by one; a
        system call has its handler's effect; the CPU-error and unknown
        interrupts only set the error flag. */
    method TrataIrq(irq: int)
      requires Valid()
      requires irq == IRQ_SISTEMA ==> ChamadaDefinida(Estado())
      modifies this
      ensures Valid()
      ensures Estado() == EfeitoIrq(old(Estado()), irq, mem, programas)
      ensures irq == IRQ_RESET ==>
                && registro == old(registro) + [Novo(old(|registro|) + 1, Carrega(programas, PROGRAMA_INIT))]
                && prontos == old(prontos) + [old(|registro|) + 1]
                && corrente == Some(old(|registro|))
                && erroInterno == (old(erroInterno) || Carrega(programas, PROGRAMA_INIT) != END_CARGA_INIT)
      ensures irq == IRQ_RELOGIO ==>
                && es == EscreveSe(EscreveSe(old(es), D_RELOGIO_INTERRUPCAO, 0), D_RELOGIO_TIMER, INTERVALO_INTERRUPCAO)
                && corrente == old(corrente) && prontos == old(prontos)
                && registro == (if old(corrente).None? then old(registro)
                                else old(registro[corrente.value := registro[corrente.value].(quantum := registro[corrente.value].quantum - 1)]))
      ensures irq == IRQ_SISTEMA ==> Estado() == EfeitoChamada(old(Estado()), mem, programas)
      ensures irq !in {IRQ_RESET, IRQ_SISTEMA, IRQ_RELOGIO} ==> Estado() == old(Estado()).(erro := true)
    {
      if irq == IRQ_RESET {
        TrataIrqReset();
      } else if irq == IRQ_SISTEMA {
        TrataIrqChamadaSistema();
      } else if irq == IRQ_ERR_CPU {
        TrataIrqErrCpu();
      } else if irq == IRQ_RELOGIO {
        TrataIrqRelogio();
      } else {
        TrataIrqDesconhecida(irq);
      }
    }

    /** `so_trata_interrupcao`: save the interrupted registers, serve the
        interrupt, resolve pendencies, schedule and dispatch; the new state
        and the answer are those of `EfeitoEntrada`.  Afterwards the current
        record, when there is one, is running and is the only running record
        (given that only it was running before, and that nothing ran before a
        reset); the answer is 1 exactly when the error flag is set or nothing
        is left to run, and 0 hands the current record's registers back to
        the CPU.  No record is lost or revived, the ready queue only grows,
        and the error flag, once set, stays set. */
    method TrataInterrupcao(irq: int) returns (r: int)
      requires Valid() && EntradaDefinida(Estado(), irq)
      modifies this
      ensures Valid()
      ensures (Estado(), r) == EfeitoEntrada(old(Estado()), irq, mem, programas)
      ensures r == if erroInterno || corrente.None? then 1 else 0
      ensures corrente.Some? ==> registro[corrente.value].estado == Executando
      ensures r == 0 ==> var p := registro[corrente.value];
                         area.pc == p.pc && area.a == p.a && area.x == p.x && area.complemento == p.complemento
      ensures (SoExecuta(old(registro), old(IndiceCorrente())) && (irq == IRQ_RESET ==> SoExecuta(old(registro), -1)))
              ==> SoExecuta(registro, IndiceCorrente())
      ensures old(erroInterno) ==> erroInterno
      ensures Avanca(old(registro), registro) && old(prontos) <= prontos
    {
      EntradaPreserva(Estado(), irq, mem, programas);
      SalvaEstadoDaCpu();
      TrataIrq(irq);
      TrataPendencias();
      Escalona();
      r := Despacha();
    }
  }
}
