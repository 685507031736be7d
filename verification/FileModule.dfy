/** The file system as it runs: the mapped bitmap and block file as arrays, control blocks as
    records, all updated in place. */
module FileModule {
  import opened Sums
  import opened Wire
  import opened Disk
  import opened FileSystem
  import opened Files
  import opened Truncate
  import opened FileIo
  import opened FileRuns

  class FCB {
    const nombre: string
    var tamanio: int
    var punteroDir: int
    var punteroIn: int
    var cantidadIndirectos: int

    constructor (nombre: string)
      ensures this.nombre == nombre && Value() == Fcb(nombre, 0, NONE, NONE, 0)
    {
      this.nombre := nombre;
      tamanio, punteroDir, punteroIn, cantidadIndirectos := 0, NONE, NONE, 0;
    }

    function Value(): Fcb
      reads this
    {
      Fcb(nombre, tamanio, punteroDir, punteroIn, cantidadIndirectos)
    }
  }

  class Archivos {
    const blockSize: int
    const bitmap: array<bool>
    const datos: array<Byte>
    var listaFCB: seq<FCB>

    ghost function Snapshot(): Fs
      reads this, bitmap, datos, listaFCB
    {
      Fs(blockSize, bitmap[..], datos[..], seq(|listaFCB|, i requires 0 <= i < |listaFCB| reads this, listaFCB => listaFCB[i].Value()))
    }

    /** Control blocks are separate records. */
    ghost predicate Separate()
      reads this
    {
      forall i, j :: 0 <= i < |listaFCB| && 0 <= j < |listaFCB| && i != j ==> listaFCB[i] != listaFCB[j]
    }

    constructor (blockSize: nat, blockCount: nat)
      requires INT_SIZE <= blockSize && Addr(blockCount, blockSize) <= MAX_INT
      ensures Separate() && Snapshot() == Fresh(blockSize, blockCount) && FsInv(Snapshot())
      ensures fresh(bitmap) && fresh(datos)
    {
      assert Addr(blockCount, blockSize) >= 0;
      var bits := new bool[BitmapBits(blockCount)](_ => false);
      var bytes := new Byte[Addr(blockCount, blockSize)](_ => 0);
      this.blockSize, bitmap, datos, listaFCB := blockSize, bits, bytes, [];
      new;
      FreshIsOk(blockSize, blockCount);
      assert Snapshot().bits == Fresh(blockSize, blockCount).bits;
      assert Snapshot().data == Fresh(blockSize, blockCount).data;
    }

    /** `escribirBloque`, `limpiarBloque` and `borrarContenido` all come down to this. */
    method Copiar(at: int, v: seq<Byte>)
      modifies datos
      ensures datos[..] == Put(old(datos[..]), at, v)
    {
      if 0 <= at && at + |v| <= datos.Length {
        forall k | 0 <= k < |v| { datos[at + k] := v[k]; }
      }
    }

    method LeerBloque(at: int, n: int) returns (v: seq<Byte>)
      ensures v == Get(datos[..], at, n)
    {
      if 0 <= at && 0 <= n && at + n <= datos.Length {
        v := datos[at..at + n];
        assert datos[..][at..at + n] == v;
      } else {
        v := [];
      }
    }

    /** A pointer, read back from the device. */
    method LeerEntero(at: int) returns (p: int)
      ensures p == IntAt(datos[..], at)
    {
      var v := LeerBloque(at, INT_SIZE);
      p := if |v| == INT_SIZE then DecInt(v) else 0;
    }

    method LimpiarBit(i: int)
      modifies bitmap
      ensures bitmap[..] == SetBit(old(bitmap[..]), i, false)
    {
      if 0 <= i < bitmap.Length { bitmap[i] := false; }
    }

    method EncontrarFCB(nombre: string) returns (n: Option<nat>)
      ensures n == IndexOf(Snapshot(), nombre)
    {
      for i := 0 to |listaFCB|
        invariant forall k :: 0 <= k < i ==> listaFCB[k].nombre != nombre
      {
        if listaFCB[i].nombre == nombre {
          n := Some(i);
          IndexIsFirst(Snapshot(), nombre, i);
          return;
        }
      }
      n := None;
    }

    method CrearOAbrir(nombre: string)
      requires Separate()
      modifies this`listaFCB
      ensures Separate() && Snapshot() == Open(old(Snapshot()), nombre)
      ensures old(listaFCB) <= listaFCB && forall f :: f in listaFCB[|old(listaFCB)|..] ==> fresh(f)
    {
      var n := EncontrarFCB(nombre);
      if n.None? {
        var fcb := new FCB(nombre);
        listaFCB := listaFCB + [fcb];
        assert Snapshot().files == old(Snapshot()).files + [Fcb(nombre, 0, NONE, NONE, 0)];
      }
    }

    method OcuparBloqueLibre(n: nat) returns (r: int)
      requires n < |listaFCB| && Separate() && DeviceOk(Snapshot())
      modifies bitmap, datos, listaFCB[n]
      ensures (Snapshot(), r) == Ocupar(old(Snapshot()), n)
      decreases if listaFCB[n].punteroDir != NONE && listaFCB[n].punteroIn == NONE then 1 else 0
    {
      hide Block, Get, Put;
      ghost var fs := Snapshot();
      var fcb := listaFCB[n];
      var i := 0;
      while i < bitmap.Length && bitmap[i]
        invariant i <= bitmap.Length && forall k :: 0 <= k < i ==> bitmap[k]
      {
        i := i + 1;
      }
      FirstFreeIs(fs.bits, i);
      if i == bitmap.Length { return -1; }
      BitInDevice(fs, i);
      bitmap[i] := true;
      assert bitmap[..] == SetBit(fs.bits, i, true);
      r := i;
      if fcb.punteroDir == NONE {
        fcb.punteroDir := Addr(i, blockSize);
        assert Snapshot().files == TakeDir(fs, n, i).files;
      } else if fcb.punteroIn == NONE {
        fcb.punteroIn := Addr(i, blockSize);
        assert Snapshot().files == TakeInd(fs, n, i).files;
        assert Snapshot() == TakeInd(fs, n, i);
        var ignored := OcuparBloqueLibre(n);
      } else {
        Copiar(fcb.punteroIn + INT_SIZE * fcb.cantidadIndirectos, EncInt(Addr(i, blockSize)));
        fcb.cantidadIndirectos := fcb.cantidadIndirectos + 1;
        assert Snapshot().files == TakeData(fs, n, i).files;
      }
    }

    method LiberarUltimoBloqueFCB(n: nat)
      requires n < |listaFCB| && Separate() && DeviceOk(Snapshot())
      modifies bitmap, datos, listaFCB[n]
      ensures Snapshot() == Liberar(old(Snapshot()), n)
    {
      hide Block, Put, Get, SetBit;
      ghost var fs := Snapshot();
      var fcb := listaFCB[n];
      if fcb.punteroIn != NONE {
        var slot := fcb.punteroIn + INT_SIZE * (fcb.cantidadIndirectos - 1);
        var puntero := LeerEntero(slot);
        Copiar(puntero, Zeros(blockSize));
        LimpiarBit(puntero / blockSize);
        Copiar(slot, Zeros(INT_SIZE));
        if fcb.cantidadIndirectos == 1 {
          LimpiarBit(fcb.punteroIn / blockSize);
          fcb.punteroIn := NONE;
        }
        fcb.cantidadIndirectos := fcb.cantidadIndirectos - 1;
      } else {
        Copiar(fcb.punteroDir, Zeros(blockSize));
        LimpiarBit(fcb.punteroDir / blockSize);
        fcb.punteroDir := NONE;
      }
      assert bitmap[..] == Given(fs, n).bits;
      assert datos[..] == Given(fs, n).data;
      fcb.tamanio := (fcb.tamanio - blockSize) % UINT32;
      assert Snapshot().files == Liberar(fs, n).files;
    }

    /** The shrinking loop of truncate. */
    method Achicar(n: nat, sobrantes: nat)
      requires n < |listaFCB| && Separate() && DeviceOk(Snapshot())
      modifies bitmap, datos, listaFCB[n]
      ensures Snapshot() == Shrink(old(Snapshot()), n, sobrantes)
    {
      hide Liberar;
      ghost var goal := Shrink(Snapshot(), n, sobrantes);
      for i := 0 to sobrantes
        invariant DeviceOk(Snapshot()) && Shrink(Snapshot(), n, sobrantes - i) == goal
      {
        LiberarUltimoBloqueFCB(n);
      }
    }

    /** The growing loop of truncate; false as soon as a block is refused. */
    method Agrandar(n: nat, faltantes: nat) returns (ok: bool)
      requires n < |listaFCB| && Separate() && DeviceOk(Snapshot())
      modifies bitmap, datos, listaFCB[n]
      ensures (Snapshot(), if ok then 1 else -1) == Grow(old(Snapshot()), n, faltantes)
    {
      hide Ocupar;
      ghost var goal := Grow(Snapshot(), n, faltantes);
      for i := 0 to faltantes
        invariant DeviceOk(Snapshot()) && Grow(Snapshot(), n, faltantes - i) == goal
      {
        var result := OcuparBloqueLibre(n);
        if result == -1 { return false; }
      }
      ok := true;
    }

    method TruncarArchivo(nombre: string, tamanio: int) returns (rta: int)
      requires Separate() && DeviceOk(Snapshot())
      modifies bitmap, datos, listaFCB
      ensures (Snapshot(), rta) == Truncar(old(Snapshot()), nombre, tamanio)
    {
      hide Shrink, Grow, Ceil, IndexOf;
      ghost var fs := Snapshot();
      var encontrado := EncontrarFCB(nombre);
      if encontrado.None? { return 2; }
      var n := encontrado.value;
      var fcb := listaFCB[n];
      var necesarios, actuales := Ceil(tamanio, blockSize), Ceil(fcb.tamanio, blockSize);
      if actuales > necesarios {
        Achicar(n, actuales - necesarios);
      } else {
        var ok := Agrandar(n, necesarios - actuales);
        if !ok { return -1; }
      }
      fcb.tamanio := tamanio;
      rta := 1;
      assert Snapshot().files == Truncar(fs, nombre, tamanio).0.files;
    }

    /** `block_pointer_from_number`. */
    method BlockPointerFromNumber(n: nat, number: nat) returns (p: int)
      requires n < |listaFCB|
      ensures p == PointerOf(Snapshot(), Snapshot().files[n], number)
    {
      if number == 0 {
        p := listaFCB[n].punteroDir;
      } else {
        p := LeerEntero(listaFCB[n].punteroIn + INT_SIZE * (number - 1));
      }
    }

    /** The bytes to write are those memory sent. */
    method EscribirArchivo(nombre: string, buffer: seq<Byte>, puntero: int) returns (rta: int)
      requires Separate() && DeviceOk(Snapshot()) && puntero >= 0
      modifies datos
      ensures (Snapshot(), rta) == Escribir(old(Snapshot()), nombre, buffer, puntero)
    {
      hide IndexOf, PointerOf, Put;
      ghost var fs := Snapshot();
      var encontrado := EncontrarFCB(nombre);
      if encontrado.None? { return -1; }
      var n := encontrado.value;
      PlaceOf(puntero, blockSize);
      var number, offset := puntero / blockSize, puntero % blockSize;
      var primero := BlockPointerFromNumber(n, number);
      if offset + |buffer| >= blockSize {
        var excedidos := offset + |buffer| - blockSize + 1;
        var segundo := BlockPointerFromNumber(n, number + 1);
        var first := |buffer| - excedidos;
        Copiar(primero + offset, buffer[..first]);
        Copiar(segundo, buffer[first..]);
      } else {
        Copiar(primero + offset, buffer);
      }
      rta := 1;
      assert Snapshot().files == fs.files;
    }

    /** The bytes handed to memory; None when there is no such file. */
    method LeerArchivo(nombre: string, bytes: int, puntero: int) returns (leido: Option<seq<Byte>>)
      requires DeviceOk(Snapshot()) && puntero >= 0
      ensures leido == Leer(Snapshot(), nombre, bytes, puntero)
    {
      hide IndexOf, PointerOf, Get;
      var encontrado := EncontrarFCB(nombre);
      if encontrado.None? { return None; }
      var n := encontrado.value;
      PlaceOf(puntero, blockSize);
      var number, offset := puntero / blockSize, puntero % blockSize;
      var primero := BlockPointerFromNumber(n, number);
      if offset + bytes >= blockSize {
        var segundo := BlockPointerFromNumber(n, number + 1);
        var excedidos := offset + bytes - blockSize + 1;
        var first := bytes - excedidos;
        var a := LeerBloque(primero + offset, first);
        var b := LeerBloque(segundo, excedidos);
        leido := Some(a + b);
      } else {
        var a := LeerBloque(primero + offset, bytes);
        leido := Some(a);
      }
    }
  }

  lemma IndexIsFirst(fs: Fs, name: string, i: nat)
    requires i < |fs.files| && fs.files[i].nombre == name && forall k :: 0 <= k < i ==> fs.files[k].nombre != name
    ensures IndexOf(fs, name) == Some(i)
  {
  }

  lemma FirstFreeIs(bits: seq<bool>, i: nat)
    requires i <= |bits| && (forall k :: 0 <= k < i ==> bits[k]) && (i < |bits| ==> !bits[i])
    ensures FirstFree(bits) == if i < |bits| then Some(i) else None
  {
  }
}
