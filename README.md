# Product catalog service — Dafny model

This project models the in-memory product catalog of a small HTTP CRUD service
(`main.py`). The catalog is an ordered list of product records (`nombre`,
`precio`, `categoria`, `stock`) whose position is the record's identity. Six
handlers work on it:

- a filtered listing (`listar_productos`),
- a bounds-checked get (`obtener_producto`),
- append (`crear_producto`),
- whole-record replace (`actualizar_producto`),
- field-by-field partial update (`actualizar_producto_parcial`),
- delete with shift-down (`eliminar_producto`).

Layout:

- `optional.dfy` — module `Optional`: the `Option` type that models Python's `Optional[...]`.
- `text.dfy` — module `Text`: `str.lower()` as ASCII case folding (`Lower`) and `needle in hay` as a recursive substring search (`Contains`).
- `sequences.dfy` — module `Sequences`: a generic `Filter`, the model of a list comprehension with an `if`, and the order-preserving subsequence relation.
- `products.dfy` — module `Products`: the `Product` and `PartialProduct` records, the `(campo, valor)` writes of a partial update (`Supplied`, `Assign`, `ApplyAll`) and the field-by-field reference result `Merge`.
- `catalog.dfy` — module `CatalogService`: the listing as a pure function `List` over the catalog contents, and the class `Catalog`, whose field `productos: seq<Product>` is the module-level list. Its methods `Get`, `Create`, `Replace`, `PartialUpdate` and `Delete` are the handlers. Each one that takes a position answers `NotFound` for a position outside `[0, |productos|)`.

The handlers' confirmation messages ("Producto creado", "Producto actualizado",
"Producto actualizado parcialmente", "Producto eliminado") are kept as the
`mensaje` of a `Reply`. The HTTP 404 answer is the `NotFound` value of `Outcome`.

The partial update follows the code's loop. `Supplied(patch)` lists the supplied
fields in declaration order, playing the role of `dict(exclude_unset=True).items()`.
`PartialUpdate` then writes them one per iteration of a `for` loop into the stored
record. `ApplySupplied` proves that these writes together equal the
field-by-field `Merge`.

## Model

| member | source | states |
|---|---|---|
| `Text.LowerHasNoUpper` | main.py:43 | a lowered string holds no upper-case ASCII letter |
| `Text.LowerEqIff` | main.py:43 | two strings have equal lowered forms exactly when they have the same length and agree position by position as the same letter ignoring ASCII case (both directions) |
| `Text.LowerIdempotent` | main.py:43-45 | lowering an already lowered string changes nothing |
| `Text.ContainsIffOccurs` | main.py:45 | the substring search used for `in` holds exactly when some offset of the haystack holds the needle (both directions) |
| `Sequences.Filter` | main.py:43-45 | a comprehension's result is no longer than its input, and every element is an input element that passes the condition |
| `Sequences.FilterFilter` | main.py:41-45 | filtering by one condition and then by another equals one filter by their conjunction |
| `CatalogService.ListIsFilter` | main.py:41-46 | the listing equals one filter of the catalog by `Selected`: category equal ignoring case when that filter is active, name contains the text ignoring case when that filter is active |
| `CatalogService.ListNoFilters` | main.py:41-46 | with both filters absent or empty, the listing is the whole catalog in catalog order |
| `CatalogService.ListEmptyNameFilter` | main.py:44-45 | an empty name filter lists the same as no name filter, and equals applying the substring test with the empty text anyway, since the empty text occurs in every name |
| `CatalogService.ListOrder` | main.py:41-46 | the listing is an order-preserving subsequence of the catalog |
| `CatalogService.ListSound` | main.py:42-45 | every listed record is in the catalog and passes every active filter |
| `CatalogService.ListComplete` | main.py:42-45 | every catalog record that passes the active filters appears in the listing |
| `CatalogService.ListCount` | main.py:42-45 | each record appears in the listing as many times as in the catalog if it passes the filters, and not at all otherwise |
| `CatalogService.ListSeedByCategory` | main.py:25-29 | on the seed catalog, category "ALIMENTO" lists exactly the "alimento" record |
| `CatalogService.ListSeedByName` | main.py:25-29 | on the seed catalog, name text "croq" lists exactly "Croquetas perro", matched ignoring case |
| `Products.ApplySupplied` | main.py:73-74 | writing the supplied fields one after another gives the merge: each supplied field takes its new value, each omitted field keeps its old one |
| `Products.MergeNothing` | main.py:16-20 | a partial update that supplies no field leaves the record unchanged |
| `Products.MergeEverything` | main.py:16-20 | a partial update that supplies all four fields is a whole-record replace |
| `Products.MergeIdempotent` | main.py:72-75 | applying the same partial update twice equals applying it once |
| `CatalogService.Catalog.constructor` | main.py:25-29 | the catalog starts as the three seed records, in order |
| `CatalogService.Catalog.Get` | main.py:51-53 | returns the record at `id` exactly when `0 <= id < length`, otherwise `NotFound`; changes nothing |
| `CatalogService.Catalog.Create` | main.py:58-59 | the catalog becomes the old catalog plus the new record at the end: length one more, last record the given one, earlier ones unchanged; answers with the stored record |
| `CatalogService.Catalog.Replace` | main.py:64-67 | for an in-range `id`, slot `id` becomes the new record and every other slot and the length stay; otherwise `NotFound` and the catalog unchanged |
| `CatalogService.Catalog.PartialUpdate` | main.py:72-76 | for an in-range `id`, each supplied field of slot `id` takes its value and each omitted field keeps its old value, other slots and length unchanged, answer is the merged record; otherwise `NotFound` and the catalog unchanged |
| `CatalogService.Catalog.Delete` | main.py:81-84 | for an in-range `id`, answers with the old record at `id`; the catalog becomes `old[..id] + old[id+1..]`, so earlier records keep their positions and every later one moves down by one; otherwise `NotFound` and the catalog unchanged |
| `CatalogService.SeedScenario` | main.py:25-29 | from start-up, position 1 holds "Pelota"; after deleting position 0 the same record is at position 0 and two records remain |

## Left out

- HTTP routing, decorators, `HTTPException` and status codes: a 404 is only the `NotFound` result value.
- Request parsing and validation (the 422 answer), JSON serialisation and the `.dict()` copies: the model stores and returns record values, so the copies change nothing observable.
- `precio` as an IEEE float: it is the type synonym `Price = real`, and no operation computes with it.
- Full Unicode behaviour of `str.lower()` and `in`: `Lower` folds only the ASCII letters 'A'..'Z', and `Contains` compares characters exactly.
- An explicit `null` sent in a partial update counts as a supplied field in the code. The model's `PartialProduct` has no null value, so a supplied field always carries a concrete value.
- Concurrent requests on the shared list: the model is sequential.
