/**
 The catalog service: one ordered list of products kept in memory, addressed by
 position, with a filtered listing and five handlers that read or change it.
 A position outside `[0, length)` is answered with `NotFound` and changes nothing.
 */
module CatalogService {

  import opened Optional
  import opened Text
  import opened Sequences
  import opened Products

  /** What a handler answers: a value, or the "Producto no encontrado" failure. */
  datatype Outcome<+T> = Ok(value: T) | NotFound

  /** The confirmation a writing handler returns with the product concerned. */
  datatype Reply = Reply(mensaje: string, producto: Product)

  const CreatedMessage: string := "Producto creado"
  const UpdatedMessage: string := "Producto actualizado"
  const PatchedMessage: string := "Producto actualizado parcialmente"
  const DeletedMessage: string := "Producto eliminado"

  /** The three records the catalog holds at start-up. */
  const Seed: seq<Product> := [
    Product("Croquetas perro", 50.0, "alimento", 20),
    Product("Pelota", 15.5, "juguetes", 50),
    Product("Correa", 25.0, "accesorios", 15)
  ]

  // ---------------------------------------------------------------------------
  // Listing

  /** A query filter is applied only when it is present and non-empty (a truthy string). */
  predicate Active(filter: Option<string>)
  {
    filter.Some? && filter.value != ""
  }

  /** Case-insensitive equality of the record's category with the filter. */
  predicate CategoryMatches(p: Product, categoria: string)
  {
    Lower(p.categoria) == Lower(categoria)
  }

  /** Case-insensitive occurrence of the filter inside the record's name. */
  predicate NameMatches(p: Product, nombre: string)
  {
    Contains(Lower(p.nombre), Lower(nombre))
  }

  /** The record passes every active filter. */
  predicate Selected(p: Product, categoria: Option<string>, nombre: Option<string>)
  {
    && (Active(categoria) ==> CategoryMatches(p, categoria.value))
    && (Active(nombre) ==> NameMatches(p, nombre.value))
  }

  /**
   `listar_productos`: start from the whole catalog, then keep the records of the
   requested category, then those whose name contains the requested text.
   */
  function List(productos: seq<Product>, categoria: Option<string>, nombre: Option<string>): seq<Product>
  {
    var byCategory :=
      if Active(categoria) then Filter(productos, p => CategoryMatches(p, categoria.value))
      else productos;
    if Active(nombre) then Filter(byCategory, p => NameMatches(p, nombre.value))
    else byCategory
  }

  /** The two successive filters are one filter by the combined condition. */
  lemma ListIsFilter(productos: seq<Product>, categoria: Option<string>, nombre: Option<string>)
    ensures List(productos, categoria, nombre) == Filter(productos, p => Selected(p, categoria, nombre))
  {
    var sel := p => Selected(p, categoria, nombre);
    if Active(categoria) && Active(nombre) {
      var f := p => CategoryMatches(p, categoria.value);
      var g := p => NameMatches(p, nombre.value);
      assert List(productos, categoria, nombre) == Filter(Filter(productos, f), g);
      FilterFilter(productos, f, g, sel);
    } else if Active(categoria) {
      FilterCongruent(productos, p => CategoryMatches(p, categoria.value), sel);
    } else if Active(nombre) {
      FilterCongruent(productos, p => NameMatches(p, nombre.value), sel);
    } else {
      FilterAll(productos, sel);
    }
  }

  /** Without an active filter the listing is the whole catalog, in catalog order. */
  lemma ListNoFilters(productos: seq<Product>, categoria: Option<string>, nombre: Option<string>)
    requires !Active(categoria) && !Active(nombre)
    ensures List(productos, categoria, nombre) == productos
  {
  }

  /**
   An empty name filter is skipped by the truthiness test, and applying it
   anyway would keep every record: the empty text occurs in every name.
   */
  lemma ListEmptyNameFilter(productos: seq<Product>, categoria: Option<string>)
    ensures List(productos, categoria, Some("")) == List(productos, categoria, None)
    ensures List(productos, categoria, Some(""))
         == Filter(List(productos, categoria, None), p => NameMatches(p, ""))
  {
    var keep := p => NameMatches(p, "");
    forall p: Product
      ensures keep(p)
    {
      assert Lower("") == "";
      EmptyOccursEverywhere(Lower(p.nombre));
    }
    FilterAll(List(productos, categoria, None), keep);
  }

  /** The listing keeps the catalog order: it is a subsequence of the catalog. */
  lemma ListOrder(productos: seq<Product>, categoria: Option<string>, nombre: Option<string>)
    ensures IsSubsequence(List(productos, categoria, nombre), productos)
  {
    ListIsFilter(productos, categoria, nombre);
    FilterIsSubsequence(productos, p => Selected(p, categoria, nombre));
  }

  /** Every listed record passes every active filter. */
  lemma ListSound(productos: seq<Product>, categoria: Option<string>, nombre: Option<string>)
    ensures forall p :: p in List(productos, categoria, nombre) ==> p in productos && Selected(p, categoria, nombre)
  {
    ListIsFilter(productos, categoria, nombre);
  }

  /** Every catalog record that passes the active filters is listed. */
  lemma ListComplete(productos: seq<Product>, categoria: Option<string>, nombre: Option<string>, k: int)
    requires 0 <= k < |productos| && Selected(productos[k], categoria, nombre)
    ensures productos[k] in List(productos, categoria, nombre)
  {
    ListIsFilter(productos, categoria, nombre);
    FilterComplete(productos, p => Selected(p, categoria, nombre), k);
  }

  /** Each record appears in the listing exactly as often as in the catalog if it passes, else never. */
  lemma ListCount(productos: seq<Product>, categoria: Option<string>, nombre: Option<string>, x: Product)
    ensures multiset(List(productos, categoria, nombre))[x]
         == if Selected(x, categoria, nombre) then multiset(productos)[x] else 0
  {
    ListIsFilter(productos, categoria, nombre);
    FilterCount(productos, p => Selected(p, categoria, nombre), x);
  }

  /** The category filter ignores case: "ALIMENTO" selects exactly the "alimento" seed record. */
  lemma ListSeedByCategory()
    ensures List(Seed, Some("ALIMENTO"), None) == [Seed[0]]
  {
    assert CategoryMatches(Seed[0], "ALIMENTO");
    assert Lower("juguetes")[0] != Lower("ALIMENTO")[0];
    assert !CategoryMatches(Seed[2], "ALIMENTO");
  }

  /** "Croquetas perro" contains "croq", ignoring case. */
  lemma CroquetasMatchesCroq()
    ensures NameMatches(Seed[0], "croq")
  {
    var lowered := Lower(Seed[0].nombre);
    assert lowered[0] == 'c' && lowered[1] == 'r' && lowered[2] == 'o' && lowered[3] == 'q';
    assert Lower("croq") == "croq" <= lowered;
  }

  /** "Pelota" does not contain "croq": it has no 'c' at all. */
  lemma PelotaMissesCroq()
    ensures !NameMatches(Seed[1], "croq")
  {
    assert Lower(Seed[1].nombre) == "pelota";
    FirstCharAbsent("pelota", "croq");
  }

  /** "Correa" does not contain "croq": its only 'c' starts "co", not "cr". */
  lemma CorreaMissesCroq()
    ensures !NameMatches(Seed[2], "croq")
  {
    assert Lower(Seed[2].nombre) == "correa";
    assert "correa"[1..] == "orrea" && "correa"[1] != "croq"[1];
    FirstCharAbsent("orrea", "croq");
  }

  /** The name filter is a case-insensitive substring test: "croq" selects exactly "Croquetas perro". */
  lemma ListSeedByName()
    ensures List(Seed, None, Some("croq")) == [Seed[0]]
  {
    CroquetasMatchesCroq();
    PelotaMissesCroq();
    CorreaMissesCroq();
  }

  // ---------------------------------------------------------------------------
  // The catalog and its handlers

  /** The process-wide list of products; a record's identity is its position. */
  class Catalog {
    var productos: seq<Product>

    /** The catalog as the process starts: the three seed records. */
    constructor ()
      ensures productos == Seed
    {
      productos := Seed;
    }

    /** `obtener_producto`: the record at `id` when `id` is a position of the catalog. */
    method Get(id: int) returns (r: Outcome<Product>)
      ensures 0 <= id < |productos| ==> r == Ok(productos[id])
      ensures !(0 <= id < |productos|) ==> r == NotFound
    {
      if 0 <= id < |productos| {
        r := Ok(productos[id]);
      } else {
        r := NotFound;
      }
    }

    /** `crear_producto`: appends the record; it becomes the last one, the others stay. */
    method Create(producto: Product) returns (r: Reply)
      modifies this
      ensures productos == old(productos) + [producto]
      ensures |productos| == |old(productos)| + 1 && productos[|productos| - 1] == producto
      ensures r == Reply(CreatedMessage, producto)
    {
      productos := productos + [producto];
      r := Reply(CreatedMessage, producto);
    }

    /** `actualizar_producto`: replaces the whole record at `id`; no other position changes. */
    method Replace(id: int, producto: Product) returns (r: Outcome<Reply>)
      modifies this
      ensures 0 <= id < |old(productos)| ==>
        && productos == old(productos)[id := producto]
        && r == Ok(Reply(UpdatedMessage, producto))
      ensures !(0 <= id < |old(productos)|) ==> productos == old(productos) && r == NotFound
    {
      if 0 <= id < |productos| {
        productos := productos[id := producto];
        r := Ok(Reply(UpdatedMessage, producto));
      } else {
        r := NotFound;
      }
    }

    /**
     `actualizar_producto_parcial`: writes the supplied fields of `patch`, one at a
     time, into the record at `id`, and answers with the merged record.
     */
    method PartialUpdate(id: int, patch: PartialProduct) returns (r: Outcome<Reply>)
      modifies this
      ensures 0 <= id < |old(productos)| ==>
        && productos == old(productos)[id := Merge(old(productos)[id], patch)]
        && r == Ok(Reply(PatchedMessage, productos[id]))
      ensures 0 <= id < |old(productos)| ==>
        && productos[id].nombre == (if patch.nombre.Some? then patch.nombre.value else old(productos)[id].nombre)
        && productos[id].precio == (if patch.precio.Some? then patch.precio.value else old(productos)[id].precio)
        && productos[id].categoria == (if patch.categoria.Some? then patch.categoria.value else old(productos)[id].categoria)
        && productos[id].stock == (if patch.stock.Some? then patch.stock.value else old(productos)[id].stock)
      ensures !(0 <= id < |old(productos)|) ==> productos == old(productos) && r == NotFound
    {
      if 0 <= id < |productos| {
        var items := Supplied(patch);
        for k := 0 to |items|
          invariant |productos| == |old(productos)|
          invariant productos == old(productos)[id := ApplyAll(old(productos)[id], items[..k])]
        {
          assert items[..k + 1][..k] == items[..k];
          productos := productos[id := Assign(productos[id], items[k])];
        }
        assert items[..|items|] == items;
        ApplySupplied(old(productos)[id], patch);
        r := Ok(Reply(PatchedMessage, productos[id]));
      } else {
        r := NotFound;
      }
    }

    /**
     `eliminar_producto`: removes the record at `id` and answers with it; every
     later record moves down one position.
     */
    method Delete(id: int) returns (r: Outcome<Reply>)
      modifies this
      ensures 0 <= id < |old(productos)| ==>
        && r == Ok(Reply(DeletedMessage, old(productos)[id]))
        && productos == old(productos)[..id] + old(productos)[id + 1..]
        && |productos| == |old(productos)| - 1
        && (forall j :: 0 <= j < id ==> productos[j] == old(productos)[j])
        && (forall j :: id < j < |old(productos)| ==> productos[j - 1] == old(productos)[j])
      ensures !(0 <= id < |old(productos)|) ==> productos == old(productos) && r == NotFound
    {
      if 0 <= id < |productos| {
        var removed := productos[id];
        productos := productos[..id] + productos[id + 1..];
        r := Ok(Reply(DeletedMessage, removed));
      } else {
        r := NotFound;
      }
    }
  }

  /**
   A run from the start-up state: position 1 holds "Pelota"; after deleting
   position 0 the same record is found at position 0 and two records remain.
   */
  method SeedScenario() returns (before: Outcome<Product>, after: Outcome<Product>, size: nat)
    ensures before == Ok(Product("Pelota", 15.5, "juguetes", 50))
    ensures after == before && size == 2
  {
    var catalog := new Catalog();
    before := catalog.Get(1);
    var _ := catalog.Delete(0);
    after := catalog.Get(0);
    size := |catalog.productos|;
  }
}
