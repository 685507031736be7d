/** The packet library as it runs: a growing stream on the sending side, a cursor that advances
    over the received buffer on the other. */
module WireModule {
  import opened Memory
  import opened Wire

  class Paquete {
    const codigoOperacion: int
    var stream: seq<Byte>
    var size: int  // the stream's length, kept by hand

    ghost predicate Valid()
      reads this
    {
      size == |stream|
    }

    constructor (motivo: int)
      ensures Valid() && stream == [] && codigoOperacion == motivo
    {
      codigoOperacion, stream, size := motivo, [], 0;
    }

    method AgregarEntero(x: int)
      requires Valid() && IsInt(x)
      modifies this
      ensures Valid() && stream == old(stream) + EncInt(x)
    {
      stream := stream + EncInt(x);
      size := size + INT_SIZE;
    }

    method AgregarAPaquete(valor: seq<Byte>)
      requires Valid() && |valor| <= MAX_INT
      modifies this
      ensures Valid() && stream == old(stream) + EncBlock(valor)
    {
      stream := stream + EncInt(|valor|) + valor;
      size := size + |valor| + INT_SIZE;
      assert stream == old(stream) + EncBlock(valor);
    }

    method EmpaquetarLista(lista: seq<seq<Byte>>)
      requires Valid() && AreStrings(lista)
      modifies this
      ensures Valid() && stream == old(stream) + EncList(lista)
    {
      AgregarEntero(|lista|);
      ghost var inicio := stream;
      EmpaquetarCadenas(lista);
      assert inicio + EncStrings(lista) == old(stream) + EncList(lista);
    }

    /** The loop over the strings, shared with `empaquetar_registros`. */
    method EmpaquetarCadenas(lista: seq<seq<Byte>>)
      requires Valid() && AreStrings(lista)
      modifies this
      ensures Valid() && stream == old(stream) + EncStrings(lista)
    {
      for i := 0 to |lista|
        invariant Valid() && stream == old(stream) + EncStrings(lista[..i])
      {
        assert IsString(lista[i]);
        AgregarAPaquete(lista[i] + [0]);
        assert lista[..i + 1][..i] == lista[..i];
        assert stream == old(stream) + EncStrings(lista[..i + 1]);
      }
      assert lista[..|lista|] == lista;
    }

    method AgregarSegmento(s: Seg)
      requires Valid() && IsSeg(s)
      modifies this
      ensures Valid() && stream == old(stream) + EncSeg(s)
    {
      AgregarEntero(s.id);
      AgregarEntero(s.base);
      AgregarEntero(s.limite);
      assert stream == old(stream) + EncSeg(s);
    }

    method EmpaquetarListaSegmentos(tabla: seq<Seg>)
      requires Valid() && IsTable(tabla)
      modifies this
      ensures Valid() && stream == old(stream) + EncTable(tabla)
    {
      AgregarEntero(|tabla|);
      ghost var inicio := stream;
      for i := 0 to |tabla|
        invariant Valid() && stream == inicio + EncSegs(tabla[..i])
      {
        AgregarSegmento(tabla[i]);
        assert tabla[..i + 1][..i] == tabla[..i];
        assert stream == inicio + EncSegs(tabla[..i + 1]);
      }
      assert tabla[..|tabla|] == tabla;
      assert stream == old(stream) + EncTable(tabla);
    }

    method Serializar() returns (bytes: seq<Byte>)
      requires Valid() && IsInt(codigoOperacion) && size <= MAX_INT
      ensures bytes == Serialize(codigoOperacion, stream)
    {
      bytes := EncInt(codigoOperacion) + (EncInt(size) + stream);
    }
  }

  /** `paquete_contexto`: the bytes handed to the socket. */
  method PaqueteContexto(c: Context, motivo: int) returns (bytes: seq<Byte>)
    requires IsContext(c) && IsInt(motivo) && |EncContext(c)| <= MAX_INT
    ensures bytes == Serialize(motivo, EncContext(c))
  {
    hide EncBlock, EncInt, EncList, EncStrings, EncTable, Serialize;
    var p := new Paquete(motivo);
    p.AgregarAPaquete(EncInt(c.pid));
    p.EmpaquetarLista(c.instrucciones);
    p.AgregarAPaquete(EncInt(c.programCounter));
    ghost var cabeza := p.stream;
    p.EmpaquetarCadenas(c.registros);
    p.EmpaquetarLista(c.parametros);
    p.EmpaquetarListaSegmentos(c.tabla);
    assert p.stream == cabeza + EncTail(c);
    assert p.stream == EncContext(c);
    bytes := p.Serializar();
  }

  /** `n` strings off the buffer, one per turn of the loop. */
  method LeerCadenas(b: seq<Byte>, inicio: nat, n: int) returns (r: Read<seq<seq<Byte>>>)
    ensures r == ReadStrings(b, inicio, n, [])
  {
    var desplazamiento, lista, i := inicio, [], 0;
    while i < n
      invariant i <= n || n < 0
      invariant ReadStrings(b, inicio, n, []) == ReadStrings(b, desplazamiento, n - i, lista)
    {
      var s := ReadString(b, desplazamiento);
      if s.OutOfBounds? { return OutOfBounds; }
      lista, desplazamiento := lista + [s.value], s.next;
      i := i + 1;
    }
    r := Got(lista, desplazamiento);
  }

  method LeerLista(b: seq<Byte>, inicio: nat) returns (r: Read<seq<seq<Byte>>>)
    ensures r == ReadList(b, inicio)
  {
    var n := ReadInt(b, inicio);
    if n.OutOfBounds? { return OutOfBounds; }
    r := LeerCadenas(b, n.next, n.value);
  }

  method LeerTabla(b: seq<Byte>, inicio: nat) returns (r: Read<seq<Seg>>)
    ensures r == ReadTable(b, inicio)
  {
    hide ReadInt, ReadSeg;
    var n := ReadInt(b, inicio);
    if n.OutOfBounds? { return OutOfBounds; }
    var desplazamiento, tabla, i := n.next, [], 0;
    while i < n.value
      invariant i <= n.value || n.value < 0
      invariant ReadTable(b, inicio) == ReadSegs(b, desplazamiento, n.value - i, tabla)
    {
      var s := ReadSeg(b, desplazamiento);
      if s.OutOfBounds? { return OutOfBounds; }
      tabla, desplazamiento := tabla + [s.value], s.next;
      i := i + 1;
    }
    r := Got(tabla, desplazamiento);
  }

  /** The hand-written context decoder, field by field. */
  method RecibirPaqueteContexto(b: seq<Byte>) returns (r: Read<Context>)
    ensures r == ReadContext(b)
  {
    hide ReadScalar, ReadList, ReadStrings, ReadTable;
    var pid := ReadScalar(b, 0);
    if pid.OutOfBounds? { return OutOfBounds; }
    var instrucciones := LeerLista(b, pid.next);
    if instrucciones.OutOfBounds? { return OutOfBounds; }
    var pc := ReadScalar(b, instrucciones.next);
    if pc.OutOfBounds? { return OutOfBounds; }
    var registros := LeerCadenas(b, pc.next, CPU_REGISTERS);
    if registros.OutOfBounds? { return OutOfBounds; }
    var parametros := LeerLista(b, registros.next);
    if parametros.OutOfBounds? { return OutOfBounds; }
    var tabla := LeerTabla(b, parametros.next);
    if tabla.OutOfBounds? { return OutOfBounds; }
    r := Got(Context(pid.value, instrucciones.value, pc.value, registros.value, parametros.value, tabla.value),
             tabla.next);
  }

  /** `enviar_tablas_actualizadas`: every table behind its PID, after the number of tables. */
  method EmpaquetarTablas(tablas: seq<(int, seq<Seg>)>) returns (stream: seq<Byte>)
    requires AreTables(tablas)
    ensures stream == EncBroadcast(tablas)
  {
    hide EncInt, EncTable, IsTable, IsInt;
    var p := new Paquete(1);
    p.AgregarEntero(|tablas|);
    ghost var inicio := p.stream;
    for i := 0 to |tablas|
      invariant p.Valid() && p.stream == inicio + EncTables(tablas[..i])
    {
      ghost var antes := p.stream;
      p.AgregarEntero(tablas[i].0);
      p.EmpaquetarListaSegmentos(tablas[i].1);
      assert tablas[..i + 1][..i] == tablas[..i];
      assert EncTables(tablas[..i + 1]) == EncTables(tablas[..i]) + (EncInt(tablas[i].0) + EncTable(tablas[i].1));
      assert p.stream == antes + (EncInt(tablas[i].0) + EncTable(tablas[i].1));
    }
    assert tablas[..|tablas|] == tablas;
    stream := p.stream;
  }

  /** The loop of `recibir_tablas_compactadas` over the broadcast. */
  method RecibirTablas(b: seq<Byte>) returns (r: Read<seq<(int, seq<Seg>)>>)
    ensures r == ReadBroadcast(b)
  {
    hide ReadTable, ReadInt;
    var n := ReadInt(b, 0);
    if n.OutOfBounds? { return OutOfBounds; }
    var desplazamiento, tablas, j := n.next, [], 0;
    while j < n.value
      invariant j <= n.value || n.value < 0
      invariant ReadBroadcast(b) == ReadTables(b, desplazamiento, n.value - j, tablas)
    {
      var pid := ReadInt(b, desplazamiento);
      if pid.OutOfBounds? { return OutOfBounds; }
      var tabla := LeerTabla(b, pid.next);
      if tabla.OutOfBounds? { return OutOfBounds; }
      tablas, desplazamiento := tablas + [(pid.value, tabla.value)], tabla.next;
      j := j + 1;
    }
    r := Got(tablas, desplazamiento);
  }
}
