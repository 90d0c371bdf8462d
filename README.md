# Process management of a teaching operating system, in Dafny

This project models the process-management core of a small operating system
that runs on a simulated single-CPU machine. There are two layers:

* `processos.dfy` (module `Processos`) models `processo.c`. A process record
  (`struct processo`) holds:
  - a pid and a state (ready, running, blocked, terminated);
  - the saved registers PC, A, X and complemento;
  - a block reason and the pid it waits for;
  - a quantum.

  A process table is an append-ordered list of records with a counter. It
  supports lookup by pid, lookup of the first blocked record, removal by
  identity and pop-front. Records and tables are Dafny classes whose methods
  overwrite fields in place. Record methods are specified by value-level
  functions on `Registro`, the record's value. Table methods are specified on
  the list order, a `seq<Processo>`, through `Anexa` (linking at the tail)
  and `SemPrimeiro` (unlinking the first occurrence).
* `so.dfy` (module `SO`) models the kernel in `so.c`. Each interrupt enters at
  `so_trata_interrupcao`, which does five steps in order:
  1. saves the interrupted registers into the current process;
  2. serves the interrupt: reset, system call, CPU error, clock or unknown;
  3. resolves pending input, output and waits over the blocked processes;
  4. schedules;
  5. dispatches.

  The state of `so_t` is the class `SO.Sistema`:
  - the process registry, a sequence of record values indexed by pid − 1;
  - the ready queue, as a sequence of pids;
  - the current process, as a registry index or none;
  - the internal-error flag;
  - the device registers, as a map;
  - the register hand-off area.

  Simulated memory and the program loader are fixed inputs: a map of readable
  cells, and a map from program name to load address.

  The same state as a value is `SO.Nucleo`. Each step and each handler has a
  function on it (`EfeitoSalva`, `EfeitoReset`, `EfeitoRelogio`, `EfeitoLe`,
  …, `EfeitoEntrada` for a whole entry). Each kernel method is proved to
  change the object exactly as its function says:
  `Estado() == EfeitoX(old(Estado()))`.

The main facts proved:

* **Pendency resolver.** One pass over the registry, in registry order
  (`Varre`), does exactly what an independent per-record reference
  (`Resolvido`) says, judged on the state before the pass:
  - the resolved pids go to the ready queue in increasing pid order;
  - the error flag rises exactly on a failing device access;
  - only screen data registers are written (offset 2 of one of the 16
    terminal registers); the timer registers and every other register are
    kept.
* **Pipeline invariant.** The kernel's invariant is:
  - record `i` has pid `i + 1`;
  - the current index lies inside the registry;
  - a blocked record names its reason, and a waited-for pid is a registered one.

  The whole interrupt pipeline keeps this invariant. It also keeps these:
  - no record is lost or revived from the terminated state;
  - the ready queue only grows;
  - the error flag is sticky;
  - the current process is the only running one, provided only it was
    running before the entry (and, for a reset, nothing was).

  When the pipeline answers 0, the current process's registers are in the
  hand-off area.
* **Entries.** A reset entry into the empty kernel creates pid 1 and runs
  it, resuming at address 100 in user mode when the bootstrap program loads
  there (`EntradaArranque`). A clock entry resolves every record as the
  reference says and then schedules (`EntradaRelogio`). With two processes
  blocked on input and only the first keyboard ready, one tick frees exactly
  that process and resumes it with the datum in A (`TickLiberaUm`).
* **String copy.** Copying a string out of simulated memory succeeds exactly
  when a 0 is reachable through readable byte cells within the bound. Storing
  a string and copying it back gives the same string.

Where the code and the design description of the system disagree, the model
follows the code:

* The live scheduler does not use round robin. It keeps a running current
  process, or else picks the first ready record in registry order
  (`so.c:508-516`). The round-robin scheduler is commented out.
* The clock handler decrements the current process's quantum, but nothing
  ever reads the quantum.
* Creating and unblocking a process append it to the ready queue, but no live
  code reads that queue. The model keeps the queue only as the list of
  appended pids.
* Resolving a wait for a process makes the waiter ready without writing its A
  register (`so.c:290-302`).
* MATA_PROC writes 0 into the A register of the *killed* process, not of the
  caller (`so.c:870`).
* MATA_PROC leaves the killed process in the registry.
* CRIA_PROC gives the caller the new pid even when the loader answered −1
  (`so.c:832-836`).
* `adiciona_processo` (`processo.c:67-81`) appends without checking whether
  the record is already linked. Re-adding a linked record makes it the tail
  and clears its link, so every record after it leaves the list: adding `b`
  to `[a, b, c]` gives `[a, b]`. `Processos.Tabela.Adiciona` models that.

## Model

| member | source | states |
|---|---|---|
| Processos.Processo.Cria | processo.c:7-20 | the new record has the given pid and PC, is ready and unblocked, has A = X = complemento = 0, a waited-for pid of −1 and a quantum of −1 |
| Processos.Novo | processo.c:7-20 | the record value `processo_cria` builds: the given pid and PC, ready, no block reason, A = X = complemento = 0, waited-for pid and quantum −1 |
| Processos.Registro.ComEstadoCpu | processo.c:22-31 | the record with PC, A, X and complemento replaced and every other field kept |
| Processos.Registro.Bloqueia | processo.c:33-44 | a running record becomes blocked with the reason and waited-for pid; any other record is returned as it is |
| Processos.Registro.Desbloqueia | processo.c:46-56 | a blocked record becomes ready with no reason, keeping its waited-for pid; any other record is returned as it is |
| Processos.SalvaEstadoCpu | processo.c:22-31 | exactly PC, A, X and complemento are overwritten; pid, state, block fields and quantum keep their values; a null record is left alone |
| Processos.Processo.Bloqueia | processo.c:33-44 | a running record becomes blocked with the given reason and waited-for pid; any other record is left unchanged |
| Processos.Processo.Desbloqueia | processo.c:46-56 | a blocked record becomes ready with no block reason and keeps its waited-for pid; any other record is left unchanged |
| Processos.BloqueiaDesbloqueia | processo.c:33-56 | blocking a running record and then unblocking it makes it ready; only the state, the reason and the waited-for pid differ from before |
| Processos.TransicoesInvalidas | processo.c:33-56 | blocking a record that is not running, or unblocking one that is not blocked, changes nothing; both operations are idempotent |
| Processos.Processo.SetEstado | processo.c:179-181 | only the state changes |
| Processos.Processo.SetA | processo.c:191-193 | only A changes |
| Processos.Processo.SetQuantum | processo.c:211-213 | only the quantum changes |
| Processos.Tabela.Inicializa | processo.c:61-65 | a new table is empty and its counter is 0 |
| Processos.Anexa | processo.c:67-81 | after linking at the tail, the record is the last element and occurs nowhere before it; a record not in the list is appended; a record already in it leaves a prefix of the old list, cut just after its first occurrence |
| Processos.AnexaTrunca | processo.c:67-81 | re-adding the middle record of three distinct records drops the last: `[a, b, c]` becomes `[a, b]` |
| Processos.Tabela.Adiciona | processo.c:67-81 | the list order becomes `Anexa` of the old order and the new record, truncation included, and the counter grows by exactly one |
| Processos.Tabela.Busca | processo.c:83-102 | the result is the first record in list order with that pid; there is no result exactly when no record has that pid, the empty table included |
| Processos.Tabela.BuscaBloqueado | processo.c:104-123 | the result is the first blocked record in list order; there is no result exactly when no record is blocked |
| Processos.Tabela.Remove | processo.c:125-163 | the first occurrence of the record, by identity, is unlinked; a null or absent record leaves the list as it was; the counter never changes |
| Processos.SemPrimeiro | processo.c:125-163 | the list order after unlinking the first occurrence of a record |
| Processos.PrimeiroIndice | processo.c:135-162 | the position the unlinking walk stops at: the first occurrence of the record, or the end of the list when it is absent |
| Processos.SemPrimeiroEm | processo.c:135-162 | unlinking the first occurrence at a position keeps everything before and after it in order |
| Processos.SemPrimeiroRemove | processo.c:125-163 | unlinking drops exactly one element, the first match, and keeps the order of the rest; without a match nothing changes |
| Processos.SemPrimeiroMultiset | processo.c:125-163 | unlinking takes exactly one copy of the record out of the list's contents |
| Processos.Tabela.RemovePrimeiro | processo.c:165-169 | the head is removed and the tail is kept; the counter drops by one, on an empty list too |
| SO.PegaTerminal | so.c:128-136 | the device register of offset `terminal` in the terminal group of the pid, (pid − 1) mod 4 with C's truncating remainder |
| SO.PegaTerminalFaixa | so.c:128-136 | for a pid of at least 1 and an offset in 0..3, the device is 4·((pid−1) mod 4) + offset, which is in 0..15 and congruent to the offset mod 4 |
| SO.PegaTerminalCompartilhado | so.c:128-136 | two processes address the same device register exactly when the offsets match and their pids differ by a multiple of 4 |
| SO.CadeiaEm | so.c:949-966 | the reference string at an address: the cells before the first 0, all readable and in 0..255, within the bound; none otherwise |
| SO.CadeiaEmSucesso | so.c:949-966 | a copy succeeds exactly when some cell within the bound holds 0 and every cell up to it is readable and in 0..255; the copied string is then the cells before that 0 |
| SO.CadeiaEmIgnoraAnteriores | so.c:949-966 | the copy reads no cell before its start address |
| SO.CadeiaEmGrava | so.c:949-966 | storing a string of bytes 1..255 shorter than the bound, followed by a 0, and copying it back gives the same string |
| SO.CopiaStrDaMem | so.c:949-966 | the copy loop succeeds exactly when the reference string exists and then returns it; it fails on a read failure, on an out-of-range cell, or when no 0 lies within the bound |
| SO.EscreveSe | so.c:646-647 | a device write changes only that register, and only when the device exists |
| SO.Libera | so.c:148-156 | unblocking record `i` with its new value and appending its pid to the ready queue |
| SO.PendenciaEntrada | so.c:242-262 | the input pendency of one record: status missing ⇒ error; status 0 ⇒ nothing; data missing ⇒ error; otherwise A := datum and the record is freed |
| SO.PendenciaSaida | so.c:265-287 | the output pendency of one record: status missing ⇒ error; status 0 ⇒ nothing; screen missing ⇒ error; otherwise X goes to the screen, A := 0 and the record is freed |
| SO.PendenciaProcesso | so.c:290-302 | the wait pendency of one record: it is freed, A untouched, exactly when the waited-for pid is registered and terminated |
| SO.Passo | so.c:424-441 | one iteration of the scan: a blocked record is handled by its reason, any other record is skipped; the registry length is kept |
| SO.Varre | so.c:409-447 | the scan over the first n records in registry order; the registry length is kept |
| SO.VarreComoEscrito | so.c:419-441 | the walk as written over an intact list: it stops right after the first record it frees, so it frees at most one record per pass |
| SO.VarreComoEscritoPara | so.c:419-441 | with pids 1 and 2 blocked on input and both keyboards ready, the walk as written frees only pid 1 and leaves pid 2 blocked, while the scan `Varre` frees both |
| SO.Resolvido | so.c:242-302 | the independent reference for one record, judged on the state before the scan: what input, output or a wait makes of it |
| SO.ResolvidoForma | so.c:242-302 | resolving a record either leaves it alone, or makes a blocked record ready with a new A and nothing else changed |
| SO.ResolvidoPreserva | so.c:242-302 | resolution never makes a record run, terminate or block, and keeps its pid, PC, X, complemento, waited-for pid and quantum |
| SO.StatusZeroMantem | so.c:250-253 | a record whose keyboard or screen status reads 0 is left unchanged, and so is every record that is not blocked |
| SO.PassoLibera | so.c:242-302 | ready input gives A := datum and ready; ready output writes X to the screen and gives A := 0 and ready; a terminated target gives ready with A untouched; each freed pid is appended to the ready queue |
| SO.ResolvidoContexto | so.c:242-302 | a record's resolution depends only on the device statuses, the keyboard data and which records have terminated |
| SO.PassoResolvido | so.c:424-441 | one step of the scan applies the reference resolution to its record, appends the pid when the record is freed, and raises the error flag exactly on a failed access |
| SO.VarreUmPasso | so.c:424-441 | if the first m records are resolved as the reference says, one more step of the scan resolves record m as well, appends its pid when it is freed and raises the error flag exactly on its failed access |
| SO.VarreSemBloqueio | so.c:409-447 | a scan over a registry with no blocked record changes nothing |
| SO.VarreResolve | so.c:409-447 | after scanning the first n records, those n are resolved as the reference says on the state before the scan, and the rest are untouched; the freed pids are appended in registry order; the error flag rises exactly when some record's device access fails; only screen data registers (terminal registers 0..15 at offset 2) change, and the device set stays the same |
| SO.VarreMantemRelogio | so.c:409-447 | a full scan keeps both timer registers and every register outside the 16 terminal registers |
| SO.LiberadosOrdem | so.c:148-156 | the freed pids are the registry's pids in strictly increasing order, and a pid is freed exactly when its record was blocked and resolution made it ready |
| SO.VarreMantem | so.c:409-447 | a full scan keeps every pid and every terminated record, the numbering and the well-blocked invariant, and the single running record; the ready queue only grows and the error flag stays set |
| SO.PrimeiroPronto | so.c:509-516 | the position of the first ready record in registry order, or none exactly when no record is ready |
| SO.Escala | so.c:487-523 | the scheduler on values: a running current process is kept, otherwise the first ready record runs, or there is none |
| SO.EscalaCorreta | so.c:487-523 | a running current process is kept; otherwise the first ready record becomes the current process and runs, or there is none; nothing else changes; if only the old current process was running, the new one is the only running record |
| SO.BloqueiosMais | so.c:117-127 | appending a new ready record keeps the registry well blocked |
| SO.Carrega | so.c:919-941 | the loader as a fixed input: the load address of a known program, −1 otherwise |
| SO.EfeitoCria | so.c:117-127 | `so_cria_processo` on values; keeps the kernel invariant, the current process and the hand-off area, loses and revives no record, only grows the ready queue, keeps the error flag, and keeps at most the current record running |
| SO.EfeitoSalva | so.c:208-231 | `so_salva_estado_da_cpu` on values; the current record, if any, holds the hand-off X; the ready queue, error flag, devices, current process and hand-off area are kept; no record is lost or revived and at most the current record runs |
| SO.EfeitoBloqueia | so.c:138-146 | `so_bloqueia_processo` on values; there is no current process afterwards; the invariants and the hand-off area are kept, no record is lost or revived, the ready queue only grows, the error flag stays set, and if at most the current record ran, nothing runs afterwards |
| SO.EfeitoReset | so.c:590-622 | `so_trata_irq_reset` on values; keeps the invariants, loses and revives no record, only grows the ready queue and keeps the error flag set; when nothing ran before, at most the new current record runs |
| SO.EfeitoRelogio | so.c:642-662 | `so_trata_irq_relogio` on values; keeps the invariants, the ready queue, the current process and the hand-off area, loses and revives no record, keeps the error flag set and keeps at most the current record running |
| SO.EfeitoLe | so.c:735-773 | the READ call on values; keeps the invariants and the hand-off area, keeps or drops the current process, loses and revives no record and runs nothing new |
| SO.EfeitoEscr | so.c:777-814 | the WRITE call on values, with the same guarantees |
| SO.EfeitoCriaProc | so.c:818-843 | the CREATE call on values, with the same guarantees |
| SO.EfeitoMataProc | so.c:847-880 | the KILL call on values; keeps the invariants, the current process and the hand-off area, loses and revives no record, and runs nothing new |
| SO.EfeitoEsperaProc | so.c:884-913 | the WAIT call on values, with the same guarantees |
| SO.EfeitoChamada | so.c:680-714 | the call named by the hand-off A, an unknown one only setting the error flag; keeps the invariants and the hand-off area, keeps or drops the current process, loses and revives no record, only grows the ready queue, keeps the error flag set and runs nothing new |
| SO.EfeitoIrq | so.c:565-587 | routes reset, system call and clock; any other interrupt only sets the error flag; every interrupt keeps the invariants and the progress conditions |
| SO.EfeitoPendencias | so.c:409-447 | the whole-registry scan; keeps the invariants, the current process and the hand-off area, and runs nothing new |
| SO.EfeitoEscalona | so.c:487-523 | `so_escalona` on values; the current process, if any, runs; the invariants and the hand-off area are kept, no record is lost or revived, and at most the current record runs when that held before |
| SO.EfeitoDespacha | so.c:525-554 | `so_despacha` on values: answer 1 and nothing written with the error flag set or no current process; otherwise the current record's PC, A, X and complemento go to the hand-off area and the answer is 0 |
| SO.EfeitoEntrada | so.c:184-206 | a whole entry: save, serve, resolve, schedule, dispatch, in that order |
| SO.EntradaPreserva | so.c:184-206 | an entry keeps the invariant; afterwards the current process, if any, runs, and it runs alone provided only it ran before the entry and, for a reset, nothing ran; the answer is 1 exactly on the error flag or nothing to run, and 0 leaves its registers in the hand-off area; no record is lost or revived, the ready queue only grows, the error flag is sticky |
| SO.PendenciasResolve | so.c:409-447 | the pendency step applies the per-record reference to every record, appends the freed pids in registry order and raises the error flag exactly on a failing access |
| SO.EscalonaDespacha | so.c:487-554 | scheduling then dispatch: the registry and current index are the scheduler's, the ready queue and error flag are kept, and the answer is 1 exactly on the error flag or nothing to run |
| SO.ResetVazio | so.c:590-622 | the reset handler on the empty kernel makes pid 1 the only record, queued and current; the error flag is set unless it loads at 100, and otherwise the hand-off PC is 100 and the mode is user |
| SO.EntradaRelogio | so.c:184-206 | a clock entry is the clock handler, then the reference resolution of every record, then scheduling from the interrupted process |
| SO.EntradaArranque | so.c:184-206 | boot: a reset entry into the empty kernel (no record, empty queue, no current process, error flag clear) leaves exactly pid 1, running and queued; it resumes at 100 in user mode with A = X = complemento = 0 when the init program loads there, with answer 0, and otherwise answers 1 with the error flag set |
| SO.TickLiberaUm | so.c:184-206 | with pids 1 and 2 blocked on input and only pid 1's keyboard ready, one tick frees exactly pid 1, queues and runs it with the datum in A and answers 0; pid 2 is unchanged |
| SO.ProgrideTransitivo | so.c:184-206 | the progress conditions compose over the steps of an entry |
| SO.Sistema.Cria | so.c:61-78 | the kernel starts with an empty registry and ready queue, no current process and the error flag clear |
| SO.Sistema.CriaProcesso | so.c:117-127 | the new pid is the registry count + 1; the record gets the loader's address as its PC, −1 included, and is appended to both the registry and the ready queue |
| SO.Sistema.BuscaProcesso | processo.c:83-102 | the registry position of the first record with that pid, or none exactly when there is none |
| SO.Sistema.BloqueiaProcesso | so.c:138-146 | the current record is blocked with the given reason and waited-for pid, and there is no current process afterwards |
| SO.Sistema.DesbloqueiaProcesso | so.c:148-156 | the record is unblocked and its pid is appended to the ready queue |
| SO.Sistema.SalvaEstadoDaCpu | so.c:208-231 | the hand-off registers are saved into the current record; without a current process nothing changes |
| SO.Sistema.TrataPendenciaEntrada | so.c:242-262 | as the reference input step: status missing ⇒ error; status 0 ⇒ nothing; data missing ⇒ error; otherwise A := datum and the record is unblocked |
| SO.Sistema.TrataPendenciaSaida | so.c:265-287 | as the reference output step: status missing ⇒ error; status 0 ⇒ nothing; screen missing ⇒ error; otherwise X goes to the screen, A := 0 and the record is unblocked |
| SO.Sistema.TrataPendenciaProcesso | so.c:290-302 | the waiter is unblocked, without writing A, exactly when the process it waits for has terminated |
| SO.Sistema.TrataPendencias | so.c:409-447 | the loop's new state is the reference scan of the whole registry, approached in registry order, together with the invariants of that scan |
| SO.Sistema.Escalona | so.c:487-523 | the loop's new registry and current index are those of the reference scheduler; afterwards the current process, if any, is running |
| SO.Sistema.Despacha | so.c:525-554 | the answer is 1 and nothing is written when the error flag is set or there is no current process; otherwise the current record's PC, A, X and complemento go to the hand-off area and the answer is 0 |
| SO.Sistema.TrataIrqReset | so.c:590-622 | the init process is created and becomes current; unless its load address is 100 the error flag is set; otherwise the hand-off PC is set to that address and the mode to user |
| SO.Sistema.TrataIrqErrCpu | so.c:625-639 | the error flag is set |
| SO.Sistema.TrataIrqRelogio | so.c:642-662 | the clock's interrupt flag is cleared and the timer is set to 50; the error flag rises when either device is missing; the only change to any record is the current one's quantum, down by one |
| SO.Sistema.TrataIrqDesconhecida | so.c:665-669 | the error flag is set |
| SO.Sistema.ChamadaLe | so.c:735-773 | status missing ⇒ error; status 0 ⇒ the caller blocks for input with waited-for pid −1 and there is no current process; data missing ⇒ error; otherwise the caller's A gets the datum and it stays current |
| SO.Sistema.ChamadaEscr | so.c:777-814 | status missing ⇒ error; status 0 ⇒ the caller blocks for output and there is no current process; screen missing ⇒ error; otherwise the hand-off X goes to the screen, the caller's A := 0 and it stays current |
| SO.Sistema.ChamadaCriaProc | so.c:818-843 | when the name at the caller's X can be copied, a process is created and gets the next pid, and the caller's A gets that pid whatever the loader answered; otherwise the caller's A := −1 and nothing is created |
| SO.Sistema.ChamadaMataProc | so.c:847-880 | the target is the caller when X = 0 and pid X otherwise; it gets A := 0 and is terminated, and stays in the registry; without a current process nothing changes |
| SO.Sistema.ChamadaEsperaProc | so.c:884-913 | a missing target, or the caller itself, gives the caller A := −1; a terminated target gives A := 0; otherwise the caller blocks waiting for the target's pid |
| SO.Sistema.TrataIrqChamadaSistema | so.c:680-714 | the new state is `EfeitoChamada` of the old; each of the five call ids has exactly its handler's effect, and an unknown id only sets the error flag |
| SO.Sistema.TrataIrq | so.c:565-587 | the new state is `EfeitoIrq` of the old; a reset appends pid count + 1 to registry and queue and makes it current, setting the error flag unless it loads at 100; a clock tick writes the clock registers, keeps the current process and queue, and lowers only the current quantum; a system call has `EfeitoChamada`'s effect; anything else only sets the error flag |
| SO.Sistema.TrataInterrupcao | so.c:184-206 | the new state and the answer are `EfeitoEntrada` of the old state; the pipeline keeps the kernel invariant; the answer is 1 exactly when the error flag is set or nothing can run; the current process, if any, runs, and it is the only running one provided only the old current process ran before and, for a reset, nothing ran; answer 0 leaves its registers in the hand-off area; no record is lost or revived; the ready queue only grows; the error flag is sticky |

## Left out

- `so_cria` and `so_destroi` (`so.c:61-112`): only the initial state is modelled (empty tables, no current process, error flag clear). Callback registration, the trampoline load, timer programming, allocation and release are not.
- `so_carrega_programa` (`so.c:919-941`) and the program image format: the loader is a fixed map from program name to load address, with −1 for a program it cannot load. Writing the program into memory is not modelled.
- Device and memory access (`es_le`, `es_escreve`, `mem_le`, `mem_escreve`): the devices are a map of registers, and a missing register is a failed access. Memory is a read-only map of readable cells.
- Device reads have no side effects: a keyboard read neither consumes its datum nor clears its status, and a screen write does not make the screen busy. So two records blocked for input on the same terminal group (pids congruent mod 4, `SO.PegaTerminalCompartilhado`) both get the same datum in one scan; this is the case in which `SO.VarreResolve` judges every record on the state before the scan.
- The hand-off area (`IRQ_END_*`) is a value of its own, not cells of the memory map. Reads from it never fail, so the syscall id is the hand-off A (`so.c:685`) and ESCR's datum is the hand-off X (`so.c:806`).
- `console_printf` logging is not modelled.
- The commented-out code is not modelled: the busy-wait helpers and blocked-process scan (`so.c:307-407`) and the quantum round-robin scheduler (`so.c:451-484`).
- `dispositivo_ocupado` and `dispositivos_disponiveis` (`so.c:79`, `so.c:716-729`) are not modelled. They are never called.
- The kernel's ready queue is an append-only list of pids. When an unblocked process is re-added to it (`so.c:154`), the truncation of `adiciona_processo` (`processo.c:76-80`) is not reproduced there; `Processos.Tabela.Adiciona` models it on the table itself.
- Shared `proximo_processo` links between the registry and the ready queue are not modelled. In the source, freeing a record calls `adiciona_processo` on the ready queue (`so.c:154`), which sets the record's `proximo_processo` to NULL (`processo.c:80`). The walk at `so.c:424-441` then stops right after the first record it frees, and the records after it can no longer be reached by `busca_processo` or the scheduler's walk. The model keeps the two lists as independent sequences. So `SO.Varre`, `SO.VarreResolve`, `SO.LiberadosOrdem`, `SO.TickLiberaUm` and the kernel methods describe the scan as intended, over the whole registry; `SO.VarreComoEscrito` models the walk as written (see "## Findings").
- The kernel holds record values in an arena rather than record objects. Record identity and the sharing of one record between both tables are not captured. The table counter equals the registry length, because nothing is ever removed from the registry. `Processos.Tabela` and `Processos.Processo` model `processo.c` on objects separately.
- SO.Sistema.ChamadaMataProc: requires the target to be the caller (X = 0) or a registered pid. A missing target is a null dereference at `so.c:875`.
- SO.Sistema.ChamadaLe: with no current process, the source dereferences null, as do ESCR, CRIA_PROC and ESPERA_PROC. So all four require a current process, and `SO.Sistema.TrataInterrupcao` requires one for these system calls.
- SO.Sistema.TrataPendenciaProcesso: requires the waited-for pid to be registered, which the registry invariant guarantees. In the source, a missing target is a null dereference at `so.c:296`, before the `processo_prioridade == NULL` test, so the second half of that condition is never reached.
- SO.Sistema.Despacha: the source's `assert` that the current process is running (`so.c:549`) becomes a precondition.
- `setPID` is not modelled, because the pid is a constant field. The other setters and all getters that the kernel does not call are not modelled either: `setPC`, `setX`, `setComplemento`, `setTipoBloqueio`, `setPidPrioridade`, `setProximoProcesso`.
- Integers are unbounded, so 32-bit overflow of pids, the quantum or register values is not modelled.
- `irq.h`, `so.h`, `dispositivos.h` and `cpu.h` are not part of this model. The constants they define are given the values of the simulator's own headers: IRQ numbers, syscall numbers, and timer registers 18 and 19. The terminal register offsets 0..3 (`proc_term_t`, `so.c:21-27`) and the clock interval of 50 (`so.c:33`) are defined in `so.c` itself. The proofs use these concrete values, and other values can break them. They rely on the syscall numbers and the IRQ numbers being distinct, on the four terminal offsets being distinct and in 0..3, and on the timer registers lying outside the 16 terminal registers. Only screen data registers are written by the resolver, so `SO.ResolvidoContexto` also needs `TERM_TELA` to differ from the other three offsets: with `TERM_TECLADO` equal to 2, a keyboard datum would be a register that the scan writes. The load address 100 and the name buffer of 100 cells appear in `so.c` itself.

## Findings

| source | as written | input that shows it | evidently intended | confidence | as-written member | corrected member |
|---|---|---|---|---|---|---|
| so.c:419-441, so.c:154, processo.c:80 | the pendency walk follows `proximo_processo`, which freeing a record clears when it is linked into the ready queue, so the walk ends after the first freed record | pids 1 and 2 blocked on input, both keyboards ready: only pid 1 is freed in that pass | every blocked record is examined once per pass, in registry order | high, not executed | SO.VarreComoEscritoPara | SO.VarreResolve |
