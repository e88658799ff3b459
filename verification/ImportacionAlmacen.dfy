/** The import as it runs, statement by statement inside one transaction, proved to commit exactly
    what ImportacionMezcla says. */
module ImportacionAlmacen {
  import opened Comun
  import opened Vinculos
  import opened Importacion
  import opened ImportacionMezcla
  import opened ImportacionTrabajos

  class Almacen {
    var unidades: map<string, Unidad>
    var proxima: nat
    var personas: seq<Persona>
    var vinculos: seq<Vinculo>
    var trabajos: seq<Trabajo>
    var llaves: map<string, FilaLlave>

    function Tablas(): Base
      reads this
    {
      Base(unidades, proxima, Padron(personas, vinculos))
    }

    function Todo(): Importaciones
      reads this
    {
      Importaciones(Tablas(), trabajos, llaves)
    }

    constructor ()
      ensures Todo() == SinImportaciones && BaseOk(Tablas())
    {
      unidades, proxima, personas, vinculos := map[], 0, [], [];
      trabajos, llaves := [], map[];
    }

    /** ROLLBACK to the tables the transaction began with. */
    method Deshacer(inicio: Base)
      modifies this`unidades, this`proxima, this`personas, this`vinculos
      ensures Tablas() == inicio
    {
      unidades, proxima := inicio.unidades, inicio.proxima;
      personas, vinculos := inicio.padron.personas, inicio.padron.vinculos;
    }

    /** CloseVinculoVigente and CloseAllVinculosVigentes: the UPDATE closes every link it reaches, or fails. */
    method CerrarVinculos(unidad: nat, persona: Option<nat>, hoy: int) returns (ok: bool)
      modifies this`vinculos
      ensures ok == PuedeCerrar(old(vinculos), unidad, persona, hoy)
      ensures ok ==> vinculos == Cerrar(old(vinculos), unidad, persona, hoy)
    {
      ok := true;
      for i := 0 to |vinculos|
        invariant |vinculos| == |old(vinculos)|
        invariant ok == (forall k | 0 <= k < i && Alcanzado(old(vinculos)[k], unidad, persona) :: old(vinculos)[k].desde < hoy)
        invariant forall k | i <= k < |vinculos| :: vinculos[k] == old(vinculos)[k]
        invariant ok ==> forall k | 0 <= k < i :: vinculos[k] == Cerrar(old(vinculos), unidad, persona, hoy)[k]
      {
        if Alcanzado(vinculos[i], unidad, persona) {
          if vinculos[i].desde >= hoy { ok := false; }
          vinculos := vinculos[i := vinculos[i].(hasta := Some(hoy))];
        }
      }
    }

    /** attachPersona. */
    method AdjuntarPersona(unidad: nat, a: Alta, hoy: int) returns (ok: bool)
      modifies this`personas, this`vinculos
      ensures ok == AdjuntarPaso(old(Tablas()).padron, unidad, a, hoy).Ok?
      ensures ok ==> Padron(personas, vinculos) == AdjuntarPaso(old(Tablas()).padron, unidad, a, hoy).value
    {
      var id := PersonaDe(personas, a.persona);
      if id >= |personas| {
        personas := personas + [a.persona];
      }
      ok := true;
      if YaVinculada(vinculos, unidad, id, a.rol) {
        ok := CerrarVinculos(unidad, Some(id), hoy);
      }
      if ok {
        vinculos := vinculos + [Vinculo(unidad, id, a.rol, a.porcentaje, a.desde, None)];
      }
    }

    /** crearUnidadDesdeFila; tables may be left half-written on an error. */
    method CrearUnidadDesdeFila(f: Fila, hoy: int) returns (r: Option<ErrorImport>)
      modifies this`unidades, this`proxima, this`personas, this`vinculos
      ensures r == match CrearFila(old(Tablas()), f, hoy) case Ok(_) => None case Err(e) => Some(e)
      ensures r.None? ==> Tablas() == CrearFila(old(Tablas()), f, hoy).value
    {
      var coef := LeerCoef(f.coef);
      if coef.None? || !CabeCoef(coef.value) || f.codigo in unidades { return Some(Restriccion); }
      var id := proxima;
      unidades := unidades[f.codigo := Unidad(id, f.tipo, f.superficie, coef.value, "activa")];
      proxima := proxima + 1;
      if TienePersona(f) {
        if !PersonaValida(f) { return Some(PersonaInvalida); }
        var ok := AdjuntarPersona(id, AltaDe(f, hoy), hoy);
        if !ok { return Some(Restriccion); }
      }
      r := None;
    }

    /** actualizarUnidadDesdeFila; tables may be left half-written on an error. */
    method ActualizarUnidadDesdeFila(f: Fila, hoy: int) returns (r: Option<ErrorImport>)
      requires f.codigo in unidades
      modifies this`unidades, this`proxima, this`personas, this`vinculos
      ensures r == match ActualizarFila(old(Tablas()), f, hoy) case Ok(_) => None case Err(e) => Some(e)
      ensures r.None? ==> Tablas() == ActualizarFila(old(Tablas()), f, hoy).value
    {
      var u := unidades[f.codigo];
      var coef := LeerCoef(f.coef);
      if coef.Some? && !CabeCoef(coef.value) { return Some(Restriccion); }
      u := u.(tipo := f.tipo);
      if f.superficie.Some? { u := u.(superficie := f.superficie); }
      if coef.Some? { u := u.(coef := coef.value); }
      unidades := unidades[f.codigo := u];
      if !TienePersona(f) { return None; }
      if !PersonaValida(f) { return Some(PersonaInvalida); }
      var ok := CerrarVinculos(u.id, None, hoy);
      if !ok { return Some(Restriccion); }
      ok := AdjuntarPersona(u.id, AltaDe(f, hoy), hoy);
      if !ok { return Some(Restriccion); }
      r := None;
    }

    /** One turn of the loop of procesarFilas. */
    method ProcesarFila(modo: Modo, f: Fila, hoy: int, ghost s: Resumen) returns (d: Option<Destino>, fallo: Option<ErrorImport>)
      requires s.base == Tablas()
      modifies this`unidades, this`proxima, this`personas, this`vinculos
      ensures match ProcesarUna(s, modo, f, hoy)
        case Err(e) => fallo == Some(e)
        case Ok(t) =>
          (fallo == None && Tablas() == t.base &&
           d == (if !f.valida then None else Some(DestinoDe(modo, s.base.unidades, f))))
    {
      if !f.valida { return None, None; }
      fallo := None;
      var existe := f.codigo in unidades;
      if (modo == Modo.Crear && existe) || (modo == Modo.Actualizar && !existe) {
        d := Some(Rechazada);
      } else if existe {
        fallo := ActualizarUnidadDesdeFila(f, hoy);
        d := Some(Actualizada);
      } else {
        fallo := CrearUnidadDesdeFila(f, hoy);
        d := Some(Creada);
      }
    }

    /** procesarFilas. */
    method ProcesarFilas(modo: Modo, filas: seq<Fila>, previos: seq<ErrorFila>, hoy: int)
      returns (creados: nat, actualizados: nat, errores: seq<ErrorFila>, fallo: Option<ErrorImport>)
      modifies this`unidades, this`proxima, this`personas, this`vinculos
      ensures match Procesar(old(Tablas()), modo, filas, previos, hoy)
        case Err(e) => fallo == Some(e)
        case Ok(s) => fallo == None && s == Resumen(Tablas(), creados, actualizados, errores)
    {
      creados, actualizados, errores, fallo := 0, 0, previos, None;
      ghost var b := Tablas();
      for i := 0 to |filas|
        invariant fallo == None
        invariant Procesar(b, modo, filas[..i], previos, hoy) == Ok(Resumen(Tablas(), creados, actualizados, errores))
      {
        assert filas[..i + 1][..i] == filas[..i];
        ghost var s := Resumen(Tablas(), creados, actualizados, errores);
        var d;
        d, fallo := ProcesarFila(modo, filas[i], hoy, s);
        if fallo.Some? {
          FalloQueda(b, modo, filas, i + 1, previos, hoy);
          return;
        }
        match d
        case Some(Creada) => creados := creados + 1;
        case Some(Actualizada) => actualizados := actualizados + 1;
        case Some(Rechazada) => errores := errores + [ErrorFila(filas[i].num, [EnCodigo])];
        case None =>
      }
      assert filas[..|filas|] == filas;
    }

    /** The processing half of ConfirmImportJob: everything or nothing, and the counts it reports. */
    method Confirmar(modo: Modo, filas: seq<Fila>, previos: seq<ErrorFila>, hoy: int)
      returns (creados: nat, actualizados: nat, rechazados: int, errores: seq<ErrorFila>, fallo: Option<ErrorImport>)
      modifies this`unidades, this`proxima, this`personas, this`vinculos
      ensures match Procesar(old(Tablas()), modo, filas, previos, hoy)
        case Err(e) => fallo == Some(e) && Tablas() == old(Tablas())
        case Ok(s) =>
          (fallo == None && s == Resumen(Tablas(), creados, actualizados, errores) &&
           rechazados == |filas| - creados - actualizados)
    {
      var inicio := Tablas();
      creados, actualizados, errores, fallo := ProcesarFilas(modo, filas, previos, hoy);
      rechazados := |filas| - creados - actualizados;
      if fallo.Some? { Deshacer(inicio); }
    }

    /** The claims of ConfirmImportJob on its job and key: refusals and stored answers, or the key stamped. */
    method Sellar(id: nat, key: string) returns (r: Option<Result<Ficha, ErrorTrabajo>>)
      modifies this`llaves
      ensures r == Atajo(old(Todo()), id, key)
      ensures llaves == if r.None? then old(llaves)[key := FilaLlave(id, None)] else old(llaves)
    {
      if id >= |trabajos| { return Some(Err(NoEncontrado)); }
      if trabajos[id].procesado { return Some(Ok(FichaDe(id, trabajos[id]))); }
      if key in llaves {
        if llaves[key].trabajo != id { return Some(Err(LlaveEnUso)); }
        return Some(Ok(if llaves[key].resp.Some? then llaves[key].resp.value else FICHA_VACIA));
      }
      llaves := llaves[key := FilaLlave(id, None)];
      r := None;
    }

    /** ConfirmImportJob, whole: the job and its key, the rows, the result; rolled back on error. */
    method ConfirmarTrabajo(id: nat, key: string, hoy: int) returns (r: Result<Ficha, ErrorTrabajo>)
      modifies this
      ensures (Todo(), r) == ConfirmarPaso(old(Todo()), id, key, hoy)
    {
      var previas := llaves;
      var atajo := Sellar(id, key);
      if atajo.Some? { return atajo.value; }
      var t := trabajos[id];
      var creados, actualizados, rechazados, errores, fallo := Confirmar(t.modo, t.filas, t.errores, hoy);
      if fallo.Some? {
        llaves := previas;
        assert Todo() == old(Todo());
        return Err(DeImportacion(fallo.value));
      }
      t := t.(procesado := true, creados := creados, actualizados := actualizados, rechazados := rechazados, errores := errores);
      trabajos := trabajos[id := t];
      llaves := llaves[key := llaves[key].(resp := Some(FichaDe(id, t)))];
      assert llaves == previas[key := FilaLlave(id, Some(FichaDe(id, t)))];
      r := Ok(FichaDe(id, t));
    }

    /** CreateImportJob, once the file is read: the rows are checked and kept; nothing else is written. */
    method CrearTrabajo(modo: Modo, rs: seq<Registro>) returns (r: Result<Ficha, ErrorTrabajo>)
      modifies this`trabajos
      ensures (Todo(), r) == CrearPaso(old(Todo()), modo, rs)
    {
      if rs == [] { return Err(PlantillaVacia); }
      var filas, errores := RevisarFilas(rs);
      var t := Trabajo(false, modo, filas, errores, 0, 0, 0);
      trabajos := trabajos + [t];
      r := Ok(FichaDe(|trabajos| - 1, t));
    }
  }

  lemma {:induction false} FalloQueda(b: Base, modo: Modo, filas: seq<Fila>, n: nat, previos: seq<ErrorFila>, hoy: int)
    requires n <= |filas| && Procesar(b, modo, filas[..n], previos, hoy).Err?
    ensures Procesar(b, modo, filas, previos, hoy) == Procesar(b, modo, filas[..n], previos, hoy)
  {
    if n == |filas| {
      assert filas[..n] == filas;
    } else {
      assert filas[..|filas| - 1][..n] == filas[..n];
      FalloQueda(b, modo, filas[..|filas| - 1], n, previos, hoy);
    }
  }
}
