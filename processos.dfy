/**
 * Process records and the process table of the simulated operating system.
 *
 * A process record (`struct processo`) is an object whose fields are
 * overwritten in place; a table (`tabela_processos_t`) is an append-ordered
 * list of records with a counter.  The singly linked chain of the original is
 * represented by the sequence `procs`; its `proximo_processo` links are not
 * modelled.
 */
module Processos {

  /** Execution state of a process (`estado_t`). */
  datatype Estado = Pronto | Executando | Bloqueado | Terminado

  /** Why a process is blocked (`tipo_bloqueio_t`). */
  datatype TipoBloqueio = EsperandoEntrada | EsperandoSaida | EsperandoProcesso | Nulo

  /**
   * The value held by a record: every field of `struct processo` except the
   * list link.  The operations of the record, stated on values, are member
   * functions; the methods of `Processo` are specified by them.
   */
  datatype Registro = Registro(
    pid: int,
    estado: Estado,
    pc: int,
    a: int,
    x: int,
    complemento: int,
    tipoBloqueio: TipoBloqueio,
    pidPrioridade: int,
    quantum: int)
  {
    /** The saved CPU registers are replaced, nothing else. */
    function ComEstadoCpu(pc: int, a: int, x: int, complemento: int): Registro
    {
      this.(pc := pc, a := a, x := x, complemento := complemento)
    }

    /** Blocking is only effective on a running record. */
    function Bloqueia(tipo: TipoBloqueio, pidPrioridade: int): Registro
    {
      if estado == Executando then
        this.(estado := Bloqueado, tipoBloqueio := tipo, pidPrioridade := pidPrioridade)
      else
        this
    }

    /** Unblocking is only effective on a blocked record; it keeps `pidPrioridade`. */
    function Desbloqueia(): Registro
    {
      if estado == Bloqueado then this.(estado := Pronto, tipoBloqueio := Nulo) else this
    }
  }

  /** The record `processo_cria(pid, pc)` builds. */
  function Novo(pid: int, pc: int): Registro
  {
    Registro(pid, Pronto, pc, 0, 0, 0, Nulo, -1, -1)
  }

  /** Blocking a running record and then unblocking it makes it ready with
      only the state, the block reason and the waited-for pid touched. */
  lemma BloqueiaDesbloqueia(r: Registro, tipo: TipoBloqueio, pidPrioridade: int)
    requires r.estado == Executando
    ensures r.Bloqueia(tipo, pidPrioridade).estado == Bloqueado
    ensures r.Bloqueia(tipo, pidPrioridade).Desbloqueia()
            == r.(estado := Pronto, tipoBloqueio := Nulo, pidPrioridade := pidPrioridade)
  {
  }

  /** Blocking anything but a running record, or unblocking anything but a
      blocked one, leaves the record as it was; both are idempotent. */
  lemma TransicoesInvalidas(r: Registro, tipo: TipoBloqueio, pidPrioridade: int)
    ensures r.estado != Executando ==> r.Bloqueia(tipo, pidPrioridade) == r
    ensures r.estado != Bloqueado ==> r.Desbloqueia() == r
    ensures r.Desbloqueia().Desbloqueia() == r.Desbloqueia()
    ensures r.Bloqueia(tipo, pidPrioridade).Bloqueia(tipo, pidPrioridade) == r.Bloqueia(tipo, pidPrioridade)
  {
  }

  /** A process record (`struct processo`). */
  class Processo {
    const pid: int
    var estado: Estado
    var pc: int
    var a: int
    var x: int
    var complemento: int
    var tipoBloqueio: TipoBloqueio
    var pidPrioridade: int
    var quantum: int

    /** The current value of the record. */
    function Value(): Registro
      reads this
    {
      Registro(pid, estado, pc, a, x, complemento, tipoBloqueio, pidPrioridade, quantum)
    }

    /** `processo_cria`. */
    constructor Cria(pid: int, pc: int)
      ensures Value() == Novo(pid, pc)
    {
      this.pid := pid;
      estado := Pronto;
      this.pc := pc;
      a := 0;
      x := 0;
      complemento := 0;
      tipoBloqueio := Nulo;
      pidPrioridade := -1;
      quantum := -1;
    }

    /** `processo_bloqueia`. */
    method Bloqueia(tipo: TipoBloqueio, pidPrioridade: int)
      modifies this
      ensures Value() == old(Value()).Bloqueia(tipo, pidPrioridade)
    {
      if estado == Executando {
        estado := Bloqueado;
        tipoBloqueio := tipo;
        this.pidPrioridade := pidPrioridade;
      }
    }

    /** `setA`. */
    method SetA(valor: int)
      modifies this
      ensures Value() == old(Value()).(a := valor)
    {
      a := valor;
    }

    /** `setEstado`. */
    method SetEstado(valor: Estado)
      modifies this
      ensures Value() == old(Value()).(estado := valor)
    {
      estado := valor;
    }

    /** `setQuantum`. */
    method SetQuantum(valor: int)
      modifies this
      ensures Value() == old(Value()).(quantum := valor)
    {
      quantum := valor;
    }

    /** `processo_desbloqueia`. */
    method Desbloqueia()
      modifies this
      ensures Value() == old(Value()).Desbloqueia()
    {
      if estado == Bloqueado {
        estado := Pronto;
        tipoBloqueio := Nulo;
      }
    }
  }

  /** `processo_salva_estado_cpu`: a null record is left alone. */
  method SalvaEstadoCpu(p: Processo?, pc: int, a: int, x: int, complemento: int)
    modifies p
    ensures p != null ==> p.Value() == old(p.Value()).ComEstadoCpu(pc, a, x, complemento)
  {
    if p == null {
      return;
    }
    p.pc := pc;
    p.a := a;
    p.x := x;
    p.complemento := complemento;
  }

  /** `s` without the first occurrence of `x`. */
  function SemPrimeiro<T(==)>(s: seq<T>, x: T): seq<T>
  {
    if s == [] then []
    else if s[0] == x then s[1..]
    else [s[0]] + SemPrimeiro(s[1..], x)
  }

  /** Removing the first occurrence of `x` deletes exactly that element and
      keeps the relative order of the others; without `x` nothing changes. */
  lemma {:induction false} SemPrimeiroEm<T>(s: seq<T>, x: T, i: nat)
    requires i <= |s| && x !in s[..i]
    requires i < |s| ==> s[i] == x
    ensures SemPrimeiro(s, x) == if i < |s| then s[..i] + s[i + 1..] else s
  {
    if s != [] {
      if s[0] == x {
        assert i == 0;
      } else {
        assert s[0] in s[..i] || i == 0;
        assert i > 0;
        assert s[1..][..i - 1] == s[..i][1..];
        SemPrimeiroEm(s[1..], x, i - 1);
        if i < |s| {
          assert [s[0]] + (s[1..][..i - 1] + s[1..][i..]) == s[..i] + s[i + 1..];
        } else {
          assert [s[0]] + s[1..] == s;
        }
      }
    }
  }

  /** The index of the first occurrence of `x` in `s`, or `|s|` without one. */
  function PrimeiroIndice<T(==)>(s: seq<T>, x: T): (i: nat)
    ensures i <= |s| && x !in s[..i]
    ensures i < |s| ==> s[i] == x
    ensures i == |s| <==> x !in s
  {
    if s == [] then 0
    else if s[0] == x then 0
    else
      var j := PrimeiroIndice(s[1..], x);
      assert s[..j + 1] == [s[0]] + s[1..][..j];
      j + 1
  }

  /** The first-occurrence removal characterised without an index. */
  lemma {:induction false} SemPrimeiroRemove<T>(s: seq<T>, x: T)
    ensures x !in s ==> SemPrimeiro(s, x) == s
    ensures x in s ==> |SemPrimeiro(s, x)| == |s| - 1
    ensures x in s ==> exists i | 0 <= i < |s| :: s[i] == x && x !in s[..i]
                                  && SemPrimeiro(s, x) == s[..i] + s[i + 1..]
  {
    var i := PrimeiroIndice(s, x);
    SemPrimeiroEm(s, x, i);
    if i < |s| {
      assert s[i] == x && x !in s[..i] && SemPrimeiro(s, x) == s[..i] + s[i + 1..];
    }
  }

  /** Removal takes exactly one copy of `x` out of the multiset of elements. */
  lemma {:induction false} SemPrimeiroMultiset<T>(s: seq<T>, x: T)
    ensures multiset(SemPrimeiro(s, x)) == multiset(s) - multiset{x}
  {
    if s != [] {
      assert s == [s[0]] + s[1..];
      if s[0] != x {
        SemPrimeiroMultiset(s[1..], x);
        assert multiset(s) - multiset{x} == multiset{s[0]} + (multiset(s[1..]) - multiset{x});
      }
    }
  }

  /** The list order after `adiciona_processo` links `x` in at the tail:
      a new `x` is appended; an `x` already linked becomes the tail, and
      clearing its link cuts off every record that followed it. */
  function Anexa<T(==)>(s: seq<T>, x: T): (r: seq<T>)
    ensures |r| > 0 && r[|r| - 1] == x && x !in r[..|r| - 1]
    ensures x !in s ==> r == s + [x]
    ensures x in s ==> r <= s
  {
    if x in s then
      var i := PrimeiroIndice(s, x);
      assert s[..i + 1][..i] == s[..i];
      s[..i + 1]
    else
      s + [x]
  }

  /** Re-adding the middle record of three drops the last one. */
  lemma AnexaTrunca<T>(a: T, b: T, c: T)
    requires a != b && b != c && a != c
    ensures Anexa([a, b, c], b) == [a, b]
  {
    assert [a, b, c][0] != b && [a, b, c][1] == b;
    assert [a, b, c][..2] == [a, b];
  }

  /** A process table (`tabela_processos_t`). */
  class Tabela {
    var procs: seq<Processo>
    var id: int

    /** `inicializa_tabela_processos`. */
    constructor Inicializa()
      ensures procs == [] && id == 0
    {
      procs := [];
      id := 0;
    }

    /** `adiciona_processo`: link at the tail, which truncates the list
        after an already-linked record; the counter grows by one. */
    method Adiciona(p: Processo)
      modifies this
      ensures procs == Anexa(old(procs), p)
      ensures id == old(id) + 1
    {
      id := id + 1;
      procs := Anexa(procs, p);
    }

    /** `busca_processo`: the first record in list order with this pid. */
    method Busca(pid: int) returns (r: Processo?)
      ensures r == null <==> forall i | 0 <= i < |procs| :: procs[i].pid != pid
      ensures r != null ==> exists i | 0 <= i < |procs| ::
                procs[i] == r && r.pid == pid && forall j | 0 <= j < i :: procs[j].pid != pid
    {
      var i := 0;
      while i < |procs|
        invariant 0 <= i <= |procs|
        invariant forall j | 0 <= j < i :: procs[j].pid != pid
      {
        if procs[i].pid == pid {
          return procs[i];
        }
        i := i + 1;
      }
      return null;
    }

    /** `busca_processo_bloqueado`: the first blocked record in list order. */
    method BuscaBloqueado() returns (r: Processo?)
      ensures r == null <==> forall i | 0 <= i < |procs| :: procs[i].estado != Bloqueado
      ensures r != null ==> exists i | 0 <= i < |procs| ::
                procs[i] == r && r.estado == Bloqueado
                && forall j | 0 <= j < i :: procs[j].estado != Bloqueado
    {
      var i := 0;
      while i < |procs|
        invariant 0 <= i <= |procs|
        invariant forall j | 0 <= j < i :: procs[j].estado != Bloqueado
      {
        if procs[i].estado == Bloqueado {
          return procs[i];
        }
        i := i + 1;
      }
      return null;
    }

    /** `remove_processo_tabela`: unlink the first occurrence of `p` (by
        identity); an absent or null record leaves the table alone. The
        counter is never touched. */
    method Remove(p: Processo?)
      modifies this
      ensures procs == if p == null then old(procs) else SemPrimeiro(old(procs), p)
      ensures id == old(id)
    {
      if procs == [] || p == null {
        return;
      }
      var i := 0;
      while i < |procs| && procs[i] != p
        invariant 0 <= i <= |procs|
        invariant p !in procs[..i]
      {
        assert procs[..i + 1] == procs[..i] + [procs[i]];
        i := i + 1;
      }
      SemPrimeiroEm(procs, p, i);
      if i < |procs| {
        procs := procs[..i] + procs[i + 1..];
      }
    }

    /** `remove_primeiro_fila`: drop the head; the counter drops by one even
        when the list was already empty. */
    method RemovePrimeiro()
      modifies this
      ensures procs == if old(procs) == [] then [] else old(procs)[1..]
      ensures id == old(id) - 1
    {
      if procs != [] {
        Remove(procs[0]);
      }
      id := id - 1;
    }
  }
}
