/**
 The records of the catalog: `Producto` (all four fields), `ProductoParcial`
 (each field optional, the body of a partial update) and the field-by-field
 writes a partial update performs.
 */
module Products {

  import opened Optional

  /** `precio` is only stored and copied; no operation computes with it. */
  type Price = real

  /** A catalog record, with the field names of its JSON form. */
  datatype Product = Product(nombre: string, precio: Price, categoria: string, stock: int)

  /** The body of a partial update: a field is `Some` exactly when the caller supplied it. */
  datatype PartialProduct = PartialProduct(
    nombre: Option<string>,
    precio: Option<Price>,
    categoria: Option<string>,
    stock: Option<int>)

  /** One `campo, valor` pair of a partial update: which field to write and its new value. */
  datatype Assignment =
    | SetNombre(nombre: string)
    | SetPrecio(precio: Price)
    | SetCategoria(categoria: string)
    | SetStock(stock: int)

  /**
   The supplied fields of a partial update as `(campo, valor)` pairs, in the
   order the fields are declared; omitted fields yield no pair.
   */
  function Supplied(patch: PartialProduct): seq<Assignment>
  {
    (if patch.nombre.Some? then [SetNombre(patch.nombre.value)] else [])
    + (if patch.precio.Some? then [SetPrecio(patch.precio.value)] else [])
    + (if patch.categoria.Some? then [SetCategoria(patch.categoria.value)] else [])
    + (if patch.stock.Some? then [SetStock(patch.stock.value)] else [])
  }

  /** `record[campo] = valor`: writes one field of a record. */
  function Assign(p: Product, a: Assignment): Product
  {
    match a
    case SetNombre(v) => p.(nombre := v)
    case SetPrecio(v) => p.(precio := v)
    case SetCategoria(v) => p.(categoria := v)
    case SetStock(v) => p.(stock := v)
  }

  /** The record after the writes of `items`, performed first to last. */
  function ApplyAll(p: Product, items: seq<Assignment>): Product
    decreases |items|
  {
    if items == [] then p else Assign(ApplyAll(p, items[..|items| - 1]), items[|items| - 1])
  }

  /**
   The intended result of a partial update, field by field: the supplied value
   where the caller gave one, the old value otherwise.
   */
  function Merge(p: Product, patch: PartialProduct): Product
  {
    Product(
      if patch.nombre.Some? then patch.nombre.value else p.nombre,
      if patch.precio.Some? then patch.precio.value else p.precio,
      if patch.categoria.Some? then patch.categoria.value else p.categoria,
      if patch.stock.Some? then patch.stock.value else p.stock)
  }

  /** Performing two batches of writes in turn is performing their concatenation. */
  lemma {:induction false} ApplyAllConcat(p: Product, s: seq<Assignment>, t: seq<Assignment>)
    ensures ApplyAll(p, s + t) == ApplyAll(ApplyAll(p, s), t)
    decreases |t|
  {
    if t == [] {
      assert s + t == s;
    } else {
      var u := t[..|t| - 1];
      assert (s + t)[..|s + t| - 1] == s + u;
      assert (s + t)[|s + t| - 1] == t[|t| - 1];
      ApplyAllConcat(p, s, u);
    }
  }

  lemma ApplyOne(p: Product, a: Assignment)
    ensures ApplyAll(p, [a]) == Assign(p, a)
  {
    assert [a][..0] == [];
  }

  /**
   Writing the supplied fields one after another, as a partial update does,
   yields the field-by-field merge: supplied fields take the new value, omitted
   fields keep the old one.
   */
  lemma ApplySupplied(p: Product, patch: PartialProduct)
    ensures ApplyAll(p, Supplied(patch)) == Merge(p, patch)
  {
    var n := if patch.nombre.Some? then [SetNombre(patch.nombre.value)] else [];
    var pr := if patch.precio.Some? then [SetPrecio(patch.precio.value)] else [];
    var c := if patch.categoria.Some? then [SetCategoria(patch.categoria.value)] else [];
    var st := if patch.stock.Some? then [SetStock(patch.stock.value)] else [];
    assert Supplied(patch) == n + pr + c + st;
    ApplyAllConcat(p, n + pr + c, st);
    ApplyAllConcat(p, n + pr, c);
    ApplyAllConcat(p, n, pr);
    var p1 := ApplyAll(p, n);
    var p2 := ApplyAll(p1, pr);
    var p3 := ApplyAll(p2, c);
    if n != [] { ApplyOne(p, n[0]); assert n == [n[0]]; }
    if pr != [] { ApplyOne(p1, pr[0]); assert pr == [pr[0]]; }
    if c != [] { ApplyOne(p2, c[0]); assert c == [c[0]]; }
    if st != [] { ApplyOne(p3, st[0]); assert st == [st[0]]; }
  }

  /** A partial update with no field supplied leaves the record as it was. */
  lemma MergeNothing(p: Product)
    ensures Merge(p, PartialProduct(None, None, None, None)) == p
  {
  }

  /** A partial update that supplies every field is a whole-record replace. */
  lemma MergeEverything(p: Product, q: Product)
    ensures Merge(p, PartialProduct(Some(q.nombre), Some(q.precio), Some(q.categoria), Some(q.stock))) == q
  {
  }

  /** Applying the same partial update twice has the effect of applying it once. */
  lemma MergeIdempotent(p: Product, patch: PartialProduct)
    ensures Merge(Merge(p, patch), patch) == Merge(p, patch)
  {
  }
}
