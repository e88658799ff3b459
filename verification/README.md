# Verification of ConsorcioAbierto's money, session and record logic

A Dafny model of the parts of ConsorcioAbierto where a mistake costs money or trust, and proofs of what those
parts promise. `dafny verify dfyconfig.toml` checks all of it.

The program is a set of small state machines over database tables. Each request is one transaction, kept only on
success. The model follows that shape twice. A module such as `Liquidaciones` gives the tables as one value and each
operation as the step it commits; a class such as `LiquidacionesAlmacen.Almacen` has the tables as fields and runs the
operation statement by statement, leaving half-written tables behind on an error and rolling them back, and each of
its methods is proved to commit exactly the step. Theorems are about the steps, over whole runs; the modules called
`…Efectos` say of each step exactly when it succeeds and what it leaves in every table. The constraints of
the database migrations (primary and unique keys, checks) are part of the steps: the insert that breaks one fails and
the transaction is undone.

- **Settlements.** `Distribucion`, `DistribucionOrden`, `DistribucionMetodos`: sharing cents among units, with the
  rounding function left arbitrary, so that float64 is one case. `Equidad`: fairness, with exact rounding.
  `MayorResto`: the documented rounding rule against the loop. `Agrupacion`: bills by concept. `Liquidaciones*`: the
  lifecycle with snapshots, charges, ledger, versions and keys, `LiquidacionesCasos` concrete runs of it.
  `CalculoEfectos`: which unit each row and charge belongs to. `Extracto`: the account statement. `Concurrencia`: the
  same transitions when reads and commits of different requests interleave, `ConcurrenciaPasos` that they are the same.
- **Payments.** `Imputacion`: FIFO. `Cobranzas*`: crediting, adjusting, reversing, the webhook, creation under a key.
  `Huella`: the request fingerprint.
- **Sessions.** `Sesiones`, `SesionesEfectos`: refresh-token families.
- **Import.** `Importacion*`: row checks, what the numbers stand for, the confirmation loop, and the job from records to
  result. `Vinculos`: the history of who lives where.
- **Audit.** `Auditoria`: the append-only log and its pages.
- **Publication.** `Difusion*`: notices, outbox, worker and fan-out, on top of the settlements, and what the notices say. `Reclamos`: which
  events the worker loses.
- **Bytes.** `Literales`, `Pdf*`, `Recibo`: the two PDF writers and a reader. `Csv`: the line splitter.
- `Comun`, `Orden`, `Texto`: options, sums, byte order, decimal text and trimming.

What comes from outside enters as a parameter of a step: clock and dates (day numbers), new identifiers, the bills
and units a calculation reads, the surfaces of an import as numbers, whether a building has a unit, the open charges a crediting step reads, the users linked to a building, whether the
PDF came out and whether the database failed. Hashes are taken as injective; identifiers of rows are positions or
numbers. Amounts are unbounded integers and coefficients reals.

Where the code and its documents differ the model follows the code:

- docs/adr/0006-rounding.md promises integer arithmetic and largest remainder; the code rounds every share, cuts what
  exceeds the rest and gives the residue to the first unit by code. `MayorResto` says exactly when the two agree.
- docs/adr/0004-ledger-and-idempotency.md promises that a retry under the same key returns the first answer. The state
  is checked before the key, so confirming and publishing always refuse the retry (nothing is duplicated either way).
- docs/adr/0009-token-session.md says a replayed token revokes family and session; only the tokens are revoked, and
  nothing can close the session afterwards.
- Comments in internal/cobranzas/mercadopago_webhook.go expect any status to be recorded; the intents table refuses
  those outside its check, "authorized" among them, and with it the delivery.
- The comment on `MarcarLeida` says a second click returns the notice again; it is answered as not found.
- An import row without a coefficient passes the preview, and creating its unit then violates NOT NULL, failing the
  whole confirmation. Two updates of one unit with persons on one day violate the check on link dates.
- Changing due dates reports success when no row matched. The unit statement counts reversed charges as due and
  credited payments as paid, while the ledger, which ADR-0004 makes the balance, does neither.
- An outbox event is lost when the database cuts its delivery short, since nothing records the failure and claims skip
  events in progress, and when its third attempt fails.

## Model

| member | source | states |
|---|---|---|
| Distribucion.Conservacion | internal/expensas/calculo.go:99-158 | For any rounding function, sign of the amounts and coefficients with a positive total: every concept is shared out exactly, each unit owes the sum of its items, the two totals agree and the difference is 0 |
| Distribucion.ConservacionConcepto | internal/expensas/calculo.go:106-137 | For any rounding function the shares of one amount add up to it, of whatever sign |
| Distribucion.PartesNoNegativas | internal/expensas/calculo.go:107-125 | A nonnegative amount charges nobody a negative share and nothing to a coefficient of zero |
| DistribucionOrden.IndependienteDelOrden | internal/expensas/calculo.go:66-71 | Permuting units with distinct codes, and any choice an unstable sort may make, gives the same whole result |
| DistribucionMetodos.OrdenarPorCodigo | internal/expensas/calculo.go:66-71 | The copy of the units is sorted by code in place, with the same contents |
| DistribucionMetodos.RepartirConcepto | internal/expensas/calculo.go:104-138 | The two passes over one concept, updating units in place, leave each unit with one more item holding its part |
| DistribucionMetodos.Distribuir | internal/expensas/calculo.go:58-159 | The three refusals in order, and otherwise the distribution over an ordering of the units by code, with nothing left undistributed |
| Equidad.EquidadDelReparto | internal/expensas/calculo.go:100-139 | With half-away-from-zero rounding and m units taking part: nobody pays less than exact - (m-1)/2; only the first by code may pay more than exact + 1/2, and at most exact + (m-1)/2, also when shares are cut to what is left |
| MayorResto.MayorRestoSi | docs/adr/0006-rounding.md:14 | The loop gives the largest-remainder distribution the decision promises if and only if at most one cent is missing and it falls on a rounded-down first unit nobody beats, and every cut takes one cent from the rounded-up units with the smallest fractions |
| MayorResto.MayorRestoUnico | docs/adr/0006-rounding.md:14 | The promised rule, largest remainder then code, determines the shares |
| MayorResto.RedondeosQueCierran | internal/expensas/calculo.go:111-121 | When the roundings add up to the amount nothing is cut, nothing is left and the result is the promised one |
| MayorResto.ElPrimeroPagaElResto | internal/expensas/calculo.go:126-138 | A case where it is not: of one cent shared 20/40/40 the first unit pays it with the smallest remainder |
| Agrupacion.AgrupadosCorrectos | internal/expensas/transiciones.go:34-57 | Grouping keeps the total; concepts are distinct, each with its own sum, in the order of their first bill, and none is missing |
| Agrupacion.AgruparConceptos | internal/expensas/transiciones.go:37-57 | The one pass with a map from concept to place computes that grouping |
| LiquidacionesInvariante.PasoConserva | internal/expensas/transiciones.go:135-475 | Every operation keeps the invariant that ties bills, snapshots, totals, states, charges, ledger, events and keys |
| LiquidacionesTeoremas.DelGastoAlLibro | internal/expensas/transiciones.go:135-354 | In every reachable state bills, items and units add up to both totals; confirmed or published there is one charge per unit with something to pay and the ledger carries exactly the bills; before there are no charges; annulled they net to zero; nothing is ever closed |
| CalculoEfectos.CalcularFunciona | internal/expensas/transiciones.go:135-289 | A calculation under an unused key succeeds if and only if the settlement is a draft or calculated one of the building at the If-Match version, some bill is registered, registered bills have positive amounts and an id each, and the units have distinct ids, no negative coefficient and a positive sum; otherwise nothing changes |
| CalculoEfectos.CalcularEscribe | internal/expensas/transiciones.go:222-283 | It then stores the registered bills, their concepts, both totals and how many units owe something, and touches no other settlement, charge, entry or event |
| CalculoEfectos.UnaFilaPropia | internal/expensas/transiciones.go:242-252 | After it each unit has exactly one snapshot row: its own id beside its own code and coefficient and the sum of its shares of the grouped concepts, at whatever place code order puts it |
| CalculoEfectos.CobroDeLaUnidad | internal/expensas/transiciones.go:63-79 | Calculated and then confirmed, each unit gets one charge for the sum of its shares if that is positive, and none otherwise |
| CalculoEfectos.RegistradosSon | internal/expensas/transiciones.go:153-165 | The bills that take part are the registered ones, every one, in their order |
| LiquidacionesEfectos.SoloConVersion | internal/database/gen/liquidaciones.sql.go:455-465 | No operation changes the row of a settlement unless it is the one addressed, in its own building, at the version its request was told |
| LiquidacionesEfectos.ConfirmarFunciona | internal/expensas/transiciones.go:295-344 | In every reachable state a confirmation succeeds if and only if the settlement is a calculated one of the building at the If-Match version under an unused key; otherwise nothing changes |
| LiquidacionesEfectos.ConfirmarEscribe | internal/expensas/transiciones.go:311-349 | It writes one charge per snapshot row with something to pay, for that unit and total, due on the first due date, a debit entry beside each, and the new state; nothing else |
| LiquidacionesEfectos.PublicarFunciona | internal/expensas/transiciones.go:359-424 | The same two for publishing: the exact condition, and one event with the settlement's own period and building |
| LiquidacionesEfectos.AnularFunciona | internal/expensas/transiciones.go:429-475 | The exact condition for annulling, and the next version with charges and entries the only other tables touched |
| LiquidacionesEfectos.AnularReversa | internal/expensas/transiciones.go:449-468 | Annulling a confirmed settlement leaves every charge of it that was due at zero with one reversal of its whole amount, and no other charge or entry changed |
| LiquidacionesEfectos.CrearFunciona | internal/expensas/liquidacion.go:104-138 | A settlement is created if and only if the period is six digits, the dates are in order and the building has no active one of that period; it is a draft at version 1 with what was asked for |
| LiquidacionesEfectos.EventosFieles | internal/expensas/transiciones.go:386-412 | In every reachable state each event carries the period and building of its settlement |
| LiquidacionesTeoremas.UnaFilaPorUnidad | internal/expensas/transiciones.go:237-262 | A snapshot lists no unit twice, so one charge per row is one charge per unit |
| LiquidacionesTeoremas.CadaCargoCuadra | internal/cuenta_corriente/cuenta_corriente.go:74-175 | A charge's entries net to its balance, which is the total or 0; it is reversed once when nothing is due and never otherwise |
| LiquidacionesTeoremas.UnaPublicacion | internal/expensas/transiciones.go:386-412 | In every reachable state a published settlement has exactly one publication event and any other none |
| LiquidacionesTeoremas.UnaPorPeriodo | db/migrations/00014_liquidaciones.sql:29-31 | In every reachable state two active settlements of one building and period are the same one |
| LiquidacionesTeoremas.UnaSolaEjecucion | internal/expensas/transiciones.go:83-130 | Over any run, after a success under a scope and key any later operation under it changes nothing and answers what the first answered or not at all |
| LiquidacionesTeoremas.PrimeraGuardada | internal/expensas/transiciones.go:117-130 | A first successful execution leaves its own answer under its key |
| LiquidacionesTeoremas.SinMarcadorVacio | internal/expensas/transiciones.go:83-130 | No committed key is left with the empty placeholder |
| LiquidacionesTeoremas.ReintentoRechazado | docs/adr/0004-ledger-and-idempotency.md:14 | The promised answer to a retry is never given for confirming and publishing: the retry is refused |
| LiquidacionesCasos.ReintentoRechazadoAlcanzable | docs/adr/0004-ledger-and-idempotency.md:14 | A run that confirms under a key, stores its answer and has the same request refused |
| LiquidacionesTeoremas.ReintentoDeCalculo | internal/expensas/transiciones.go:147-190 | A retry of a calculation gets the first answer exactly when the settlement is still calculated, of that building, with bills and units to read |
| LiquidacionesTeoremas.ExtractoYLibro | internal/cobranzas/ledger.go:53-66 | The charges the statement lists exceed the ledger by what was reversed, and equal it exactly when none of the unit's charges was |
| Extracto.GetCuentaCorriente | internal/cobranzas/ledger.go:37-114 | Every charge of the unit and every credited payment, once each, sorted in place by date, creation and identifier; the balance is charges less credits |
| Extracto.OrdenUnico | internal/cobranzas/ledger.go:90-99 | With distinct identifiers that order leaves no choice |
| Extracto.SaldoYLibro | docs/adr/0004-ledger-and-idempotency.md:12 | In every reachable state the statement's balance is the ledger's plus what was reversed less what was credited; the two agree exactly when those are equal |
| LiquidacionesCasos.ExtractoDistintoDelLibro | internal/cobranzas/ledger.go:37-114 | A run that calculates, confirms and annuls one bill: the statement still shows it and the ledger is at zero |
| LiquidacionesAlmacen.Almacen.Calcular | internal/expensas/transiciones.go:135-289 | The statements of a calculation, rolled back on any error, commit exactly the step proved above |
| LiquidacionesAlmacen.Almacen.Confirmar | internal/expensas/transiciones.go:295-354 | The same for confirming: charges, debit entries, transition, key |
| LiquidacionesAlmacen.Almacen.Publicar | internal/expensas/transiciones.go:359-424 | The same for publishing: event, transition, key |
| LiquidacionesAlmacen.Almacen.Anular | internal/expensas/transiciones.go:429-475 | The same for annulling: a reversal for each charge still due, transition |
| LiquidacionesAlmacen.Almacen.Crear | internal/expensas/liquidacion.go:104-138 | Refusals for period, due dates and a second active settlement, or a new draft at version 1 |
| LiquidacionesAlmacen.Almacen.ActualizarVencimientos | internal/expensas/liquidacion.go:178-210 | Due dates change only on a draft at the expected version; no matching row is still a success |
| LiquidacionesTeoremas.VencimientosSi | internal/expensas/liquidacion.go:178-210 | After a success the dates are the ones asked for exactly when they were before or the settlement is a draft of that building at that version; otherwise nothing changed |
| LiquidacionesCasos.VencimientosSinEfecto | internal/expensas/liquidacion.go:197-209 | A calculated settlement whose change of dates answers success and keeps the old ones |
| LiquidacionesAlmacen.Almacen.CrearCargos | internal/cuenta_corriente/cuenta_corriente.go:74-125 | A charge and its paired debit entry per unit, appended in order |
| LiquidacionesAlmacen.Almacen.RevertirCargo | internal/cuenta_corriente/cuenta_corriente.go:130-175 | A reversal entry for the whole charge, and its balance set to 0 |
| Concurrencia.UnaTransicionPorVersion | internal/database/gen/liquidaciones.sql.go:455-465 | However reads and commits of any requests interleave, no two transitions commit at one version and charges are written at most once |
| Concurrencia.CargosDelSnapshotVigente | internal/expensas/transiciones.go:304-344 | If the If-Match version of every confirmation had been reached when it began, charges always come from the snapshot in force at commit |
| Concurrencia.VersionFuturaRompe | internal/expensas/transiciones.go:304-344 | The condition is exact: for any version not yet reached some interleaving commits charges of a snapshot no longer in force |
| ConcurrenciaPasos.ConfirmarRefleja | internal/expensas/transiciones.go:295-354 | A confirmation nobody interrupts does in the concurrent model what the step does: same state, version and snapshot, and the lot it commits is the one the step charges |
| ConcurrenciaPasos.CalcularRefleja | internal/expensas/transiciones.go:135-289 | The same for a calculation and the snapshot it brings |
| ConcurrenciaPasos.PublicarRefleja | internal/expensas/transiciones.go:359-424 | The same for publishing |
| ConcurrenciaPasos.AnularRefleja | internal/expensas/transiciones.go:429-475 | The same for annulling |
| Imputacion.FifoOptimo | internal/cobranzas/acreditacion.go:170-196 | No spreading of the payment within it and within the balances covers more of the first k charges than FIFO, for any k |
| Imputacion.FifoCompleto | internal/cobranzas/acreditacion.go:170-196 | The FIFO total is the lesser of payment and debt, and a charge is reached only after the older ones are covered |
| Imputacion.AsignadasSuman | internal/cobranzas/acreditacion.go:170-196 | The rows inserted add up to what the charges receive |
| Cobranzas.PasoConserva | internal/cobranzas/acreditacion.go:49-161 | Every operation keeps allocations within their payment, on credited payments only |
| CobranzasTeoremas.AsignacionDentroDelPago | internal/cobranzas/cobranzas.go:155-168 | In any run only credited payments hold allocations, positive, to distinct charges, within the payment, so the clamp on leftover credit never acts |
| CobranzasTeoremas.SaldoDevueltoEsElRecalculado | internal/cobranzas/acreditacion.go:198-223 | The leftover credit answered by crediting, adjusting or reversing is the one recomputed from the rows left |
| CobranzasTeoremas.WebhookUnaVez | internal/cobranzas/mercadopago_webhook.go:52-77 | In any run the webhook credits a payment at most once, and never after it was credited, rejected or reversed |
| CobranzasTeoremas.WebhookNoRepite | internal/cobranzas/mercadopago_webhook.go:52-77 | A replayed delivery credits nothing again |
| CobranzasTeoremas.WebhookResponde | internal/cobranzas/mercadopago_webhook.go:34-78 | A delivery for a known preference succeeds exactly when the intents table accepts its status |
| CobranzasTeoremas.WebhookAuthorizedFalla | db/migrations/00023_psp_intents.sql:14 | A delivery with status "authorized" for a known preference is refused and changes nothing |
| CobranzasEfectos.WebhookAcreditaSi | internal/cobranzas/mercadopago_webhook.go:34-78 | In every reachable state a delivery for a known preference credits its payment if and only if the status is "approved" and the payment was awaiting review; the rows then sum to the lesser of amount and debt, older charges in full before newer ones; the intent holds the status; the answer says whether it was "approved"; a status the table refuses changes nothing |
| CobranzasEfectos.AcreditarFunciona | internal/cobranzas/acreditacion.go:49-89 | Crediting succeeds if and only if the payment exists and, unless already credited, the allocation asked for is of positive amounts to distinct existing charges within the payment; it is kept as asked, or made oldest first when none is; a credited payment stays as it is |
| CobranzasEfectos.AjustarFunciona | internal/cobranzas/acreditacion.go:127-161 | Adjusting succeeds under the same condition and leaves exactly the rows asked for, whatever there was |
| CobranzasEfectos.RevertirFunciona | internal/cobranzas/acreditacion.go:91-125 | Reversing leaves any payment reversed and without rows, answers the rows removed and touches no other payment |
| CobranzasEfectos.CrearFunciona | internal/cobranzas/cobranzas.go:222-273 | Under an unused key a payment is created if and only if the unit exists and neither key nor reference is taken; it holds the request and the key, awaits review and has no rows |
| CobranzasEfectos.IntentoFunciona | internal/database/gen/cobranzas.sql.go:60-83 | An intent is recorded if and only if the payment exists and the preference is not another payment's; it is then the payment's only one and no other changes |
| CobranzasTeoremas.FifoAdmitido | internal/cobranzas/acreditacion.go:170-196 | FIFO over listed open charges is never refused |
| CobranzasTeoremas.UnaSolaAlta | internal/cobranzas/cobranzas.go:222-336 | Under one key a payment is created at most once; the same request repeated gets the first answer, another is refused, one for a unit the building lacks is not found; none changes anything |
| Huella.HuellaInyectiva | internal/cobranzas/cobranzas.go:284-296 | For one key the text joined before hashing determines the validated request, bars in references included |
| CobranzasAlmacen.Almacen.Acreditar | internal/cobranzas/acreditacion.go:49-89 | The statements of crediting, rolled back on error, commit exactly the step proved above |
| CobranzasAlmacen.Almacen.Ajustar | internal/cobranzas/acreditacion.go:127-161 | The same for replacing an allocation |
| CobranzasAlmacen.Almacen.Revertir | internal/cobranzas/acreditacion.go:91-125 | The same for reversing a payment |
| CobranzasAlmacen.Almacen.Webhook | internal/cobranzas/mercadopago_webhook.go:34-78 | The same for one delivery of the webhook |
| CobranzasAlmacen.Almacen.Crear | internal/cobranzas/cobranzas.go:222-273 | The same for creating a payment under a key |
| Sesiones.UnVivoPorFamilia | internal/identity/auth.go:196-256 | In every run a family has at most one unrevoked token |
| Sesiones.MuertaParaSiempre | internal/identity/auth.go:388-404 | A family without a live token never has one again |
| Sesiones.RotacionDeja | internal/identity/auth.go:408-485 | An accepted token is spent and its successor is the family's only live token |
| SesionesEfectos.AceptaSi | internal/identity/auth.go:408-485 | A token is accepted if and only if it is stored, unrevoked and not past its expiry, the membership lets the user in and the successor is new |
| SesionesEfectos.RefrescarEscribe | internal/identity/auth.go:430-470 | The accepted token is revoked at that moment and its successor keeps session, user and family, with the expiry given; no other row changes |
| SesionesEfectos.RefrescarRechaza | internal/identity/auth.go:388-428 | A refusal changes nothing, unless a revoked token came back: then every live token of its family is revoked and no other row changes; which refusal it is, exactly |
| SesionesEfectos.AbrirEscribe | internal/identity/auth.go:196-256 | A login opens one session and one live token of a new family, if and only if there is a membership and the hash is new |
| SesionesEfectos.SalirEscribe | internal/identity/auth.go:488-518 | A logout with a live token revokes it and closes its session and nothing else; any other does nothing |
| SesionesEfectos.AceptadoSi | internal/identity/auth.go:408-485 | Over any run the token an operation handed out is accepted if and only if nothing since exchanged it, logged it out or replayed a spent token of its family, and its own expiry has not passed |
| SesionesEfectos.SiempreDelUsuario | internal/identity/auth.go:430-470 | In every run a token belongs to the user of its session |
| Sesiones.UsoUnico | internal/identity/auth.go:408-485 | A token is accepted at most once, and presenting it again leaves its family dead |
| Sesiones.RoboDetectado | internal/identity/auth.go:408-485 | After a replay no token of the family is accepted, whoever holds it |
| Sesiones.SalirMataFamilia | internal/identity/auth.go:488-518 | Logging out with a live token kills its family and closes its session |
| Sesiones.SesionCerradaSi | internal/identity/auth.go:488-518 | In every run a session is closed exactly when a logout spent the live token of its family |
| Sesiones.SesionMuertaFija | internal/identity/auth.go:388-404 | Once a family is dead its session's row never changes again |
| Sesiones.ReusoNoCierraSesion | docs/adr/0009-token-session.md:14 | After a replay, however long the run goes on, the family is dead and its session is closed if and only if an earlier logout spent the family's live token |
| Sesiones.RoboConSesionAbierta | docs/adr/0009-token-session.md:14 | A run of login, refresh and replay that leaves the family dead and the session open |
| Sesiones.Autenticacion.Refrescar | internal/identity/auth.go:408-485 | The statements of a refresh commit exactly that step |
| Sesiones.Autenticacion.Salir | internal/identity/auth.go:488-518 | The statements of a logout commit exactly that step |
| Vinculos.UnVinculoAbierto | internal/consorcios/ufs.go:191-246 | Over every run at most one open link per unit, person and role |
| Vinculos.HistoriaSoloCrece | internal/consorcios/ufs.go:191-246 | No link is removed or reopened, and a closing date once set never changes |
| Vinculos.AdjuntarEscribe | internal/consorcios/ufs.go:191-246 | Exactly when a person can be attached, and the whole new state: the link asked for, that person's own open links to the unit closed if one was in the same role, everything else as it was |
| Vinculos.UnoTrasReemplazar | internal/consorcios/imports.go:536-556 | After an update from a row with a person the unit has exactly one open link, the new one; links of other units stand |
| Vinculos.ReemplazarFunciona | internal/consorcios/imports.go:536-556 | Such an update works exactly when every open link of the unit began on an earlier day |
| Vinculos.DosVecesElMismoDia | db/migrations/00009_ufs_personas.sql:57 | A unit updated from a row with a person cannot be again on the same day |
| Importacion.RevisarFilas | internal/consorcios/imports.go:228-303 | The checking loop, with the set of codes seen, computes the rows and errors of the specification |
| Importacion.RevisionGarantiza | internal/consorcios/imports.go:228-303 | Valid rows have distinct nonempty codes, each invalid row has one error entry, and a valid row's person passes validation again |
| ImportacionNumeros.CoefVale | internal/consorcios/ufs.go:410-430 | Digits A, or A, a point and up to eight digits F, are read as A + F/10^|F|, counted in hundred millionths |
| ImportacionNumeros.CoefLegibleSi | internal/consorcios/ufs.go:410-414 | No other text is read as a coefficient |
| ImportacionNumeros.MasDeCienSi | internal/consorcios/imports.go:306-309 | A percentage is refused for its size exactly when the number written is over a hundred |
| ImportacionEfectos.PasaSi | internal/consorcios/imports.go:231-298 | A record passes the preview if and only if its code is new in the file and fits, its type and surface are right, its coefficient is a number or blank and any person it names has a name, a known role and a percentage from 0 to 100 |
| ImportacionEfectos.CamposSi | internal/consorcios/imports.go:240-291 | Each field is reported exactly when it is wrong |
| ImportacionMezcla.ProcesarEsMezcla | internal/consorcios/imports.go:436-486 | When a confirmation goes through, the units it leaves are the mode's merge by code of those there were and the valid rows, missing fields kept |
| ImportacionEfectos.RegistrosAplicados | internal/consorcios/imports.go:436-556 | From the records to the units: a created unit holds the type, surface and the very coefficient written and is active; an updated one keeps id, state and what the record leaves blank; the mode decides which; no other code is touched |
| ImportacionEfectos.PersonasVinculadas | internal/consorcios/imports.go:509-556 | After a successful import the unit of each accepted record that names a person has one open link, that person's, with the record's role and percentage, from today |
| ImportacionMezcla.CadaFilaUnDestino | internal/consorcios/imports.go:391-408 | Each row ends as exactly one of created, updated or rejected, and rejections are as many as error entries |
| ImportacionMezcla.ProcesarFunciona | internal/consorcios/imports.go:436-556 | A confirmation goes through exactly when every valid row is applicable to the building as it was before |
| ImportacionMezcla.OrdenIndiferente | internal/consorcios/imports.go:436-486 | The rows in another order go through alike and leave the same units |
| ImportacionTrabajos.ImportacionSi | internal/consorcios/imports.go:206-486 | From the records of the file: the confirmation goes through if and only if every record that passed the preview has a coefficient if it creates, one that fits the column if any, and no link of an updated unit opened that day if it names a person; then the units are the merge and the counts add up |
| ImportacionTrabajos.SinCoeficiente | internal/consorcios/imports.go:263-266 | A file of one record without a coefficient passes the preview clean and fails the confirmation whole |
| ImportacionTrabajos.UnaSolaConfirmacion | internal/consorcios/imports.go:347-385 | A job is carried out once: after a success every confirmation, under any key and whatever happened in between, gives its answer again and changes nothing |
| ImportacionTrabajos.ConfirmarFunciona | internal/consorcios/imports.go:350-431 | A prepared job is confirmed exactly when the key is unused and its rows go through; a refusal changes nothing |
| ImportacionArchivo.ArchivoImportado | internal/consorcios/imports.go:116-486 | A file prepared as a job and confirmed any time later has all those effects on the building as it then is, with new ids for new units, and only that job is marked |
| ImportacionArchivo.FichaDeLaImportacion | internal/consorcios/imports.go:391-427 | The answer counts the accepted records created and updated by the mode, and lists the preview's errors and then one on the code for each accepted record the mode rejects |
| ImportacionAlmacen.Almacen.Confirmar | internal/consorcios/imports.go:436-486 | The loop over rows, statement by statement and rolled back on error, commits exactly the specified rows and reports their counts |
| ImportacionAlmacen.Almacen.CrearTrabajo | internal/consorcios/imports.go:116-166 | The checked rows and their errors are kept in a job; nothing else is written |
| ImportacionAlmacen.Almacen.ConfirmarTrabajo | internal/consorcios/imports.go:331-431 | The statements of a confirmation, job, key, rows and result, rolled back on error, commit exactly that step |
| Auditoria.PaginasReensamblan | apps/api/transport/http/auth.go:423-428 | Following cursors stops after one page more than the full pages of the log, and the pages joined are exactly the matching events at the first page, newest first, whatever newer events arrive meanwhile |
| Auditoria.RecorridoCompleto | internal/audit/audit.go:139-159 | Under appends with any keys at all the walk ends once the pages have more places than the log has events; it is strictly newest first, shows only matching events and misses none of those there at the start |
| Auditoria.RecorridoConAltas | internal/audit/audit.go:139-159 | The same order and contents from any cursor, also for a walk cut short |
| Auditoria.ListadoCorrecto | internal/database/gen/audit.sql.go:14-27 | The query answers the matching events below the cursor, each once, newest first |
| Auditoria.ListadoSi | internal/database/gen/audit.sql.go:14-27 | An event is listed if and only if it is of the tenant, of the action and resource asked for, between the dates inclusive and strictly below the cursor |
| Auditoria.Registro.Pedir | apps/api/transport/http/auth.go:371-446 | A page holds matching events only, carries a cursor exactly when full, and any matching event is on it or below its cursor |
| Auditoria.Registro.Registrar | internal/audit/audit.go:43-68 | One event is appended, or none when action or resource type is empty |
| DifusionTeoremas.UnEventoPorPublicacion | internal/comunicaciones/comunicados.go:80-150 | After any run, with any keys, failures and redeliveries, what is published has exactly one outbox event and what is not has none; no event is claimed more than three times |
| DifusionTeoremas.UnAvisoPorUsuario | internal/notificaciones/notificaciones.go:112-151 | A user has at most one notice about a resource, only if it is published, reading as the resource's one event says |
| DifusionTeoremas.EntregaCuadra | internal/notificaciones/notificaciones.go:127-150 | A successful delivery has addressees = created + omitted, leaves each addressee with a notice and touches no notice there was |
| DifusionTeoremas.ReentregaNoDuplica | internal/outbox/outbox.go:91-135 | However much later, delivering an event again to users it reached creates nothing |
| DifusionTeoremas.EntregaFuncionaSi | internal/outbox/outbox.go:91-175 | In a reachable state a delivery succeeds exactly when the database holds and, for a settlement, the PDF comes out; an empty title is never met |
| DifusionTextos.AvisoDice | internal/outbox/outbox.go:95-192 | After any run a notice about a communication has its title and body, and one about a settlement names the period of its row in title and body |
| DifusionTextos.EntregaEscribe | internal/outbox/outbox.go:91-202 | Every delivery of a queued event: nothing stays if the database fails; the event alone is failed if the PDF is; otherwise it is done and exactly the addressees not told before get an unread notice of what it announces |
| DifusionTextos.PublicarEscribe | internal/comunicaciones/comunicados.go:103-150 | A first publication marks the communication and queues one event with its own words; a later one queues nothing |
| Reclamos.ReclamableTrasFallo | db/migrations/00024_comunicados_outbox.sql:53-90 | A claimed event whose delivery fails can be claimed again if and only if the failure was not the database's and fewer than three attempts were made |
| Reclamos.ReclamoPerdido | internal/outbox/outbox.go:78-135 | In every run of a worker that delivers what it claims, some continuation takes a failed event up again if and only if that holds; otherwise none claims or delivers it |
| Reclamos.PerdidaAlcanzable | internal/outbox/outbox.go:194-202 | A run that publishes a notice, claims it and loses it to a database failure |
| DifusionTeoremas.PublicarRepetido | internal/comunicaciones/comunicados.go:80-150 | Publishing again with any key answers the same published notice and changes nothing but that key |
| DifusionTeoremas.PublicarFunciona | internal/comunicaciones/comunicados.go:80-121 | A publication is refused exactly for a blank key, a key of another notice or no such notice, and then changes nothing |
| DifusionTeoremas.LeerUnaVez | internal/notificaciones/notificaciones.go:180-197 | Marking a notice read works once; repeated at any later time it is not found |
| DifusionAlmacen.Almacen.Publicar | internal/comunicaciones/comunicados.go:80-150 | The statements of a publication, rolled back on error, commit exactly that step |
| DifusionAlmacen.Almacen.Procesar | internal/outbox/outbox.go:91-202 | The fan-out loop with its counters, and the failure paths, commit exactly that step |
| Literales.EscaparEsUnaPasada | internal/cobranzas/ledger.go:179-184 | The three replacement passes do what one pass does |
| Literales.LiteralIdaYVuelta | internal/outbox/pdf.go:74-79 | A literal-string reader (section 7.3.4.2 of ISO 32000-1) gets the escaped text back exactly when it has no carriage return, and otherwise with line ends read as line feeds |
| Pdf.TablaCorrecta | internal/cobranzas/ledger.go:163-175 | For any objects, under 10^10 bytes: startxref points at the table, entry 0 is the free one, every other entry is 20 bytes and holds the offset where its object starts (sections 7.5.4 and 7.5.5) |
| Pdf.LargoCorrecto | internal/cobranzas/ledger.go:158 | /Length equals the byte count of the stream (section 7.3.8) |
| PdfArbol.PaginaLeida | internal/cobranzas/ledger.go:152-175 | From the trailer through catalog, page tree and page (sections 7.5.5, 7.7.2 and 7.7.3) the reader reaches the content stream, and its bytes are the ones written |
| PdfContenido.ReciboSeLee | internal/cobranzas/ledger.go:140-177 | Read that way, the receipt shows the lines given, exactly them when none has a carriage return |
| PdfContenido.LiquidacionSeLee | internal/outbox/pdf.go:10-72 | Read that way, the settlement's file shows its period and identifiers |
| PdfMetodos.BuildSimplePdf | internal/cobranzas/ledger.go:140-177 | The growing buffer and noted offsets leave that file |
| PdfMetodos.Generate | internal/outbox/pdf.go:10-72 | The growing buffer and noted offsets leave that file |
| Recibo.BuildReciboPdf | internal/cobranzas/ledger.go:116-131 | The page of a receipt shows its lines |
| Recibo.ImporteSeLee | internal/cobranzas/ledger.go:133-138 | An amount of any sign printed as pesos and cents reads back |
| Recibo.MontosDelRecibo | internal/cobranzas/ledger.go:116-131 | The amount and the leftover credit stand in their lines to the cent, with or without allocations |
| Recibo.MontosAsignados | internal/cobranzas/ledger.go:127-129 | Each allocation stands in its own line to the cent |
| Recibo.DatosDelRecibo | internal/cobranzas/ledger.go:117-126 | The receipt names the collection, its unit, date and channel in their lines |
| Csv.ParseCsvLine | apps/web/src/pages/cobranzas/csv.ts:50-76 | The loop with its index and quote flag computes the specified splitting |
| Csv.IdaYVuelta | apps/web/src/pages/cobranzas/csv.ts:50-76 | For every nonempty list of fields, however each is quoted within section 2 of RFC 4180, splitting the printed line gives the list back |
| Csv.NormalizarLinea | apps/web/src/pages/cobranzas/csv.ts:50-76 | Whatever line was split, quoting its fields writes a line that splits the same |

## Left out

- HTTP routing, JSON, cookies, permission checks and request parsing: only commit on success and rollback on error are kept.
- Cryptography, tokens' signatures, password and second factor, base64 of cursors: hashes are injective and new tokens fresh.
- Rows of other tenants and row-level security, except the tenant filter of the audit query.
- A worker that dies between claiming and delivering: it leaves events as a database failure does.
- Float64 behaviour of coefficients: conservation holds for any rounding function, fairness and largest remainder are stated for exact rounding.
- int64 overflow of amounts, and the width of NUMERIC columns other than the unit coefficient.
- Validity of dates and UUIDs as text; dates are day numbers, identifiers numbers.
- Row order where a query has no ORDER BY, including the order of allocations in repeated answers.
- The table liquidacion_unidad_items, which nothing fills; the unit items are in `Distribucion`.
- `TransitionEstado` of internal/expensas/liquidacion.go, which no handler calls.
- Balances of charges after payments: no file updates them, so the open charges are an input of each crediting step.
- Reading the import file as CSV (encoding, header, record splitting, surfaces as float64): `Importacion` starts from the fields of each record.
- `parseCobranzasCsv` around the line splitter: splitting into lines before quotes are read, so a quoted line break is not a field's.
- Trimming and lower-casing of the webhook's fields; the step takes them normalised.
- Equal UUIDs written differently in a publication's path: notices are known by number.
- Idempotency keys in `Concurrencia`: requests there differ only in action, version and what they read.
- Concurrent calls to refresh: the lookup runs outside the transaction, so the family properties are for calls one at a time.
- The worker's schedule (ticks, batch size, next attempt time): a delivery may come at any moment, any number of times.
- Consorcios, proveedores, personas and documentos as records, reclamos, configuration, metrics and the web pages: single checks or tables that hold no further law.
