/**
 * The product catalogue (ProductosService): lookups, the active-only and
 * per-category listings, partial updates, soft deletion through `activo`,
 * the guarded stock decrement and the start-up seeding of an empty catalogue.
 * Prices are integer cents (the `precio` column is decimal(10,2)).
 */
module Productos {
  import opened Wrappers
  import opened Errors
  import opened Table

  datatype Producto = Producto(
    nombre: string,
    descripcion: Option<string>,
    precio: int,
    stock: int,
    categoria: Option<string>,
    imagen: Option<string>,
    activo: bool)

  /** CreateProductoDto (also the shape of each seed record). */
  datatype NuevoProducto = NuevoProducto(
    nombre: string,
    descripcion: Option<string>,
    precio: int,
    stock: int,
    categoria: Option<string>,
    imagen: Option<string>)

  /** UpdateProductoDto: every field optional; present fields overwrite. */
  datatype ProductoPatch = ProductoPatch(
    nombre: Option<string>,
    descripcion: Option<string>,
    precio: Option<int>,
    stock: Option<int>,
    categoria: Option<string>,
    imagen: Option<string>,
    activo: Option<bool>)

  type Catalogo = seq<Row<Producto>>

  /** The validation decorators of CreateProductoDto (`@IsNotEmpty`, `@Min(0)`). */
  predicate ValidDto(d: NuevoProducto) {
    d.nombre != "" && d.precio >= 0 && d.stock >= 0
  }

  /** The same decorators on UpdateProductoDto, applied to the fields present. */
  predicate ValidPatch(u: ProductoPatch) {
    (u.nombre.Some? ==> u.nombre.value != "")
    && (u.precio.Some? ==> u.precio.value >= 0)
    && (u.stock.Some? ==> u.stock.value >= 0)
  }

  ghost predicate StockNoNegativo(rows: Catalogo) {
    forall i :: 0 <= i < |rows| ==> rows[i].val.stock >= 0
  }

  /** `productosRepository.create(dto)`: the column default makes a new product active. */
  function Crear(d: NuevoProducto): Producto {
    Producto(d.nombre, d.descripcion, d.precio, d.stock, d.categoria, d.imagen, true)
  }

  /** `Object.assign(producto, dto)`. */
  function ApplyPatch(p: Producto, u: ProductoPatch): Producto {
    Producto(
      if u.nombre.Some? then u.nombre.value else p.nombre,
      if u.descripcion.Some? then u.descripcion else p.descripcion,
      if u.precio.Some? then u.precio.value else p.precio,
      if u.stock.Some? then u.stock.value else p.stock,
      if u.categoria.Some? then u.categoria else p.categoria,
      if u.imagen.Some? then u.imagen else p.imagen,
      if u.activo.Some? then u.activo.value else p.activo)
  }

  const SinCambios := ProductoPatch(None, None, None, None, None, None, None)

  /** An update changes only what it supplies: applying it twice is applying it once, and an empty one is a no-op. */
  lemma PatchOverwritesOnlySupplied(p: Producto, u: ProductoPatch)
    ensures ApplyPatch(ApplyPatch(p, u), u) == ApplyPatch(p, u)
    ensures ApplyPatch(p, SinCambios) == p
    ensures var q := ApplyPatch(p, u);
      && (if u.nombre.Some? then q.nombre == u.nombre.value else q.nombre == p.nombre)
      && (if u.descripcion.Some? then q.descripcion == u.descripcion else q.descripcion == p.descripcion)
      && (if u.precio.Some? then q.precio == u.precio.value else q.precio == p.precio)
      && (if u.stock.Some? then q.stock == u.stock.value else q.stock == p.stock)
      && (if u.categoria.Some? then q.categoria == u.categoria else q.categoria == p.categoria)
      && (if u.imagen.Some? then q.imagen == u.imagen else q.imagen == p.imagen)
      && (if u.activo.Some? then q.activo == u.activo.value else q.activo == p.activo)
  {
  }

  // -----------------------------------------------------------------------
  // Queries
  // -----------------------------------------------------------------------

  /** `findOne(id)`: the product, or NotFound "Producto con ID <id> no encontrado". */
  function FindOne(rows: Catalogo, id: int): (r: Result<Row<Producto>>)
    ensures r.Ok? <==> id in Ids(rows)
    ensures r.Ok? ==> r.value in rows && r.value.id == id
    ensures r.Err? ==> r.error == ProductoNoEncontrado(id)
  {
    match Find(rows, id)
    case None => Err(ProductoNoEncontrado(id))
    case Some(row) => Ok(row)
  }

  /** A `find({ where })` without ordering: the rows that satisfy `keep`, in table order. */
  function Where(rows: Catalogo, keep: Producto -> bool): (r: Catalogo)
    ensures |r| <= |rows|
    ensures forall i :: 0 <= i < |r| ==> r[i] in rows && keep(r[i].val)
    ensures forall i :: 0 <= i < |rows| && keep(rows[i].val) ==> rows[i] in r
  {
    if rows == [] then []
    else
      var rest := Where(rows[1..], keep);
      assert forall i :: 1 <= i < |rows| ==> rows[i] == rows[1..][i - 1];
      (if keep(rows[0].val) then [rows[0]] else []) + rest
  }

  /** The rows with `activo` set, in table order. */
  function Activos(rows: Catalogo): (r: Catalogo)
    ensures forall i :: 0 <= i < |r| ==> r[i] in rows && r[i].val.activo
    ensures forall i :: 0 <= i < |rows| && rows[i].val.activo ==> rows[i] in r
  {
    Where(rows, (p: Producto) => p.activo)
  }

  /** `findByCategoria(c)`: exactly the active products of category `c`. */
  function FindByCategoria(rows: Catalogo, categoria: string): (r: Catalogo)
    ensures forall x :: x in r <==> x in rows && x.val.activo && x.val.categoria == Some(categoria)
  {
    var r := Where(rows, (p: Producto) => p.activo && p.categoria == Some(categoria));
    assert forall x :: x in rows ==> exists i :: 0 <= i < |rows| && rows[i] == x;
    r
  }

  /** Code-point lexicographic order on names (`ORDER BY nombre ASC`). */
  predicate NombreLeq(a: string, b: string) {
    a == [] || (b != [] && (a[0] < b[0] || (a[0] == b[0] && NombreLeq(a[1..], b[1..]))))
  }

  lemma {:induction false} NombreLeqTotal(a: string, b: string)
    ensures NombreLeq(a, b) || NombreLeq(b, a)
  {
    if a != [] && b != [] && a[0] == b[0] {
      NombreLeqTotal(a[1..], b[1..]);
    }
  }

  ghost predicate SortedByNombre(s: Catalogo) {
    forall i, j :: 0 <= i < j < |s| ==> NombreLeq(s[i].val.nombre, s[j].val.nombre)
  }

  /** `h` is no greater than any name in `t`. */
  ghost predicate LowerBound(h: Row<Producto>, t: Catalogo) {
    forall j :: 0 <= j < |t| ==> NombreLeq(h.val.nombre, t[j].val.nombre)
  }

  lemma SortedCons(h: Row<Producto>, t: Catalogo)
    requires SortedByNombre(t) && LowerBound(h, t)
    ensures SortedByNombre([h] + t)
  {
    var r := [h] + t;
    forall i, j | 0 <= i < j < |r| ensures NombreLeq(r[i].val.nombre, r[j].val.nombre) {
      assert r[j] == t[j - 1];
      if i > 0 { assert r[i] == t[i - 1]; }
    }
  }

  lemma HeadIsLowerBound(x: Row<Producto>, s: Catalogo)
    requires SortedByNombre(s) && s != [] && NombreLeq(x.val.nombre, s[0].val.nombre)
    ensures LowerBound(x, s)
  {
    forall j | 0 <= j < |s| ensures NombreLeq(x.val.nombre, s[j].val.nombre) {
      if j > 0 { NombreLeqTransitive(x.val.nombre, s[0].val.nombre, s[j].val.nombre); }
    }
  }

  lemma LowerBoundOfInsert(h: Row<Producto>, s: Catalogo, x: Row<Producto>, r: Catalogo)
    requires LowerBound(h, s) && NombreLeq(h.val.nombre, x.val.nombre)
    requires multiset(r) == multiset(s) + multiset{x}
    ensures LowerBound(h, r)
  {
    forall j | 0 <= j < |r| ensures NombreLeq(h.val.nombre, r[j].val.nombre) {
      var y := r[j];
      assert y in multiset(r);
      if y != x {
        assert y in multiset(s);
        var k :| 0 <= k < |s| && s[k] == y;
      }
    }
  }

  function InsertByNombre(x: Row<Producto>, s: Catalogo): (r: Catalogo)
    requires SortedByNombre(s)
    ensures SortedByNombre(r)
    ensures multiset(r) == multiset(s) + multiset{x}
  {
    if s == [] then [x]
    else if NombreLeq(x.val.nombre, s[0].val.nombre) then
      HeadIsLowerBound(x, s);
      SortedCons(x, s);
      [x] + s
    else
      assert s == [s[0]] + s[1..];
      var rest := InsertByNombre(x, s[1..]);
      NombreLeqTotal(x.val.nombre, s[0].val.nombre);
      assert LowerBound(s[0], s[1..]);
      LowerBoundOfInsert(s[0], s[1..], x, rest);
      SortedCons(s[0], rest);
      [s[0]] + rest
  }

  lemma {:induction false} NombreLeqTransitive(a: string, b: string, c: string)
    requires NombreLeq(a, b) && NombreLeq(b, c)
    ensures NombreLeq(a, c)
  {
    if a != [] && b != [] && c != [] && a[0] == b[0] && b[0] == c[0] {
      NombreLeqTransitive(a[1..], b[1..], c[1..]);
    }
  }

  function SortByNombre(s: Catalogo): (r: Catalogo)
    ensures SortedByNombre(r)
    ensures multiset(r) == multiset(s)
  {
    if s == [] then []
    else
      assert s == [s[0]] + s[1..];
      InsertByNombre(s[0], SortByNombre(s[1..]))
  }

  /** `findAll()`: the active products, ordered by name. */
  function FindAll(rows: Catalogo): (r: Catalogo)
    ensures SortedByNombre(r)
    ensures multiset(r) == multiset(Activos(rows))
    ensures forall x :: x in r <==> x in rows && x.val.activo
  {
    var r := SortByNombre(Activos(rows));
    assert forall x :: x in r <==> x in multiset(r);
    assert forall x :: x in Activos(rows) <==> x in multiset(Activos(rows));
    assert forall x :: x in rows ==> exists i :: 0 <= i < |rows| && rows[i] == x;
    r
  }

  // -----------------------------------------------------------------------
  // Stock
  // -----------------------------------------------------------------------

  /** The guard and decrement of `actualizarStock` on one product. */
  function DescontarStock(p: Producto, cantidad: int): (r: Result<Producto>)
    ensures r.Ok? <==> cantidad <= p.stock
    ensures r.Ok? ==> r.value.stock == p.stock - cantidad && r.value.stock >= 0
    ensures r.Ok? ==> r.value.(stock := p.stock) == p
    ensures r.Err? ==> r.error == StockInsuficiente(p.nombre)
  {
    if p.stock < cantidad then Err(StockInsuficiente(p.nombre))
    else Ok(p.(stock := p.stock - cantidad))
  }

  /** `actualizarStock(id, cantidad)`: the row it saves, or why it throws. */
  function StockActualizado(rows: Catalogo, id: int, cantidad: int): (r: Result<Row<Producto>>)
    ensures FindOne(rows, id).Err? ==> r == Err(ProductoNoEncontrado(id))
    ensures FindOne(rows, id).Ok? ==>
              var p := FindOne(rows, id).value.val;
              && (r.Ok? <==> cantidad <= p.stock)
              && (r.Ok? ==> r.value.id == id && r.value.val == p.(stock := p.stock - cantidad))
              && (r.Err? ==> r.error == StockInsuficiente(p.nombre))
  {
    var row :- FindOne(rows, id);
    var p :- DescontarStock(row.val, cantidad);
    Ok(Row(id, p))
  }

  /** The 10 - 3 = 7 example, and the insufficient-stock message for 2 < 5. */
  lemma ActualizarStockExamples(rows: Catalogo, p: Producto)
    requires rows == [Row(1, p)] && p.nombre == "PS5"
    ensures p.stock == 10 ==> StockActualizado(rows, 1, 3) == Ok(Row(1, p.(stock := 7)))
    ensures p.stock == 2 ==>
              StockActualizado(rows, 1, 5).Err?
              && Message(StockActualizado(rows, 1, 5).error) == "Stock insuficiente para PS5"
  {
    assert Find(rows, 1) == Some(rows[0]);
  }

  lemma SaveKeepsStockNoNegativo(rows: Catalogo, row: Row<Producto>)
    requires StockNoNegativo(rows) && row.val.stock >= 0
    ensures StockNoNegativo(Save(rows, row))
  {
  }

  // -----------------------------------------------------------------------
  // Seeding
  // -----------------------------------------------------------------------

  /** The rows `n` seed records get when inserted one after another from key `firstId`. */
  function Sembrados(firstId: int, ds: seq<NuevoProducto>): (r: Catalogo)
    ensures |r| == |ds|
    ensures forall i :: 0 <= i < |ds| ==> r[i] == Row(firstId + i, Crear(ds[i])) && r[i].val.activo
  {
    seq(|ds|, i requires 0 <= i < |ds| => Row(firstId + i, Crear(ds[i])))
  }

  /** The repository behind ProductosService. */
  class ProductosService {
    var rows: Catalogo
    var nextId: int

    ghost predicate Valid()
      reads this
    {
      Table.Valid(rows, nextId) && StockNoNegativo(rows)
    }

    constructor ()
      ensures Valid() && rows == [] && nextId == 1
    {
      rows := [];
      nextId := 1;
    }

    /** `create(dto)`: a new active product with the next key. */
    method Create(d: NuevoProducto) returns (r: Row<Producto>)
      requires Valid() && ValidDto(d)
      modifies this
      ensures Valid()
      ensures r == Row(old(nextId), Crear(d)) && r.val.activo
      ensures rows == old(rows) + [r] && nextId == old(nextId) + 1
    {
      r := Row(nextId, Crear(d));
      InsertValid(rows, nextId, r.val);
      rows := Insert(rows, nextId, r.val);
      nextId := nextId + 1;
    }

    /** `update(id, dto)`: overwrites the supplied fields of an existing product. */
    method Update(id: int, u: ProductoPatch) returns (r: Result<Row<Producto>>)
      requires Valid() && ValidPatch(u)
      modifies this
      ensures Valid() && nextId == old(nextId)
      ensures FindOne(old(rows), id).Err? ==> r == FindOne(old(rows), id) && rows == old(rows)
      ensures FindOne(old(rows), id).Ok? ==>
        r == Ok(Row(id, ApplyPatch(FindOne(old(rows), id).value.val, u)))
        && rows == Save(old(rows), r.value)
    {
      var producto :- FindOne(rows, id);
      var saved := Row(id, ApplyPatch(producto.val, u));
      SaveValid(rows, nextId, saved);
      rows := Save(rows, saved);
      r := Ok(saved);
    }

    /** `remove(id)`: soft delete; the row stays with `activo` false. */
    method Remove(id: int) returns (r: Result<Row<Producto>>)
      requires Valid()
      modifies this
      ensures Valid() && nextId == old(nextId)
      ensures FindOne(old(rows), id).Err? ==> r == FindOne(old(rows), id) && rows == old(rows)
      ensures FindOne(old(rows), id).Ok? ==>
        r == Ok(Row(id, FindOne(old(rows), id).value.val.(activo := false)))
        && rows == Save(old(rows), r.value) && |rows| == |old(rows)|
    {
      var producto :- FindOne(rows, id);
      var saved := Row(id, producto.val.(activo := false));
      SaveValid(rows, nextId, saved);
      rows := Save(rows, saved);
      r := Ok(saved);
    }

    /** `actualizarStock(id, cantidad)`: checked decrement, saved only on success. */
    method ActualizarStock(id: int, cantidad: int) returns (r: Result<Row<Producto>>)
      requires Valid()
      modifies this
      ensures Valid() && nextId == old(nextId)
      ensures r == StockActualizado(old(rows), id, cantidad)
      ensures rows == if r.Ok? then Save(old(rows), r.value) else old(rows)
    {
      var producto :- FindOne(rows, id);
      if producto.val.stock < cantidad {
        return Err(StockInsuficiente(producto.val.nombre));
      }
      var saved := Row(id, producto.val.(stock := producto.val.stock - cantidad));
      SaveValid(rows, nextId, saved);
      SaveKeepsStockNoNegativo(rows, saved);
      rows := Save(rows, saved);
      r := Ok(saved);
    }

    /** `cargarProductosIniciales()`: inserts every seed record, in order. */
    method CargarProductosIniciales(iniciales: seq<NuevoProducto>) returns (creados: Catalogo)
      requires Valid()
      requires forall i :: 0 <= i < |iniciales| ==> iniciales[i].stock >= 0
      modifies this
      ensures Valid()
      ensures creados == Sembrados(old(nextId), iniciales)
      ensures rows == old(rows) + creados && nextId == old(nextId) + |iniciales|
    {
      creados := [];
      for i := 0 to |iniciales|
        invariant Valid()
        invariant creados == Sembrados(old(nextId), iniciales[..i])
        invariant rows == old(rows) + creados && nextId == old(nextId) + i
      {
        var producto := Row(nextId, Crear(iniciales[i]));
        InsertValid(rows, nextId, producto.val);
        rows := Insert(rows, nextId, producto.val);
        nextId := nextId + 1;
        creados := creados + [producto];
      }
      assert iniciales[..|iniciales|] == iniciales;
    }

    /** `cargarProductosSiNoExisten()`: seeds only a catalogue with no rows at all. */
    method CargarProductosSiNoExisten(iniciales: seq<NuevoProducto>)
      requires Valid()
      requires forall i :: 0 <= i < |iniciales| ==> iniciales[i].stock >= 0
      modifies this
      ensures Valid()
      ensures old(|rows|) == 0 ==> rows == Sembrados(old(nextId), iniciales) && nextId == old(nextId) + |iniciales|
      ensures old(|rows|) != 0 ==> rows == old(rows) && nextId == old(nextId)
    {
      if |rows| == 0 {
        var _ := CargarProductosIniciales(iniciales);
      }
    }
  }
}
