# ListaNoGenerica and Persona/Documento copies, in Dafny

This project models two small teaching examples from a Java course repository.

**`ListaNoGenerica`** (`lista.dfy`, module `Lista`) is a growable list over a
backing array `elementos` and a logical count `size`.
- The array starts with `LONGITUD_BASE = 3` slots.
- `agregar` appends. When the array is full, it is first replaced by a copy
  `size + 3` slots long.
- `obtener` reads by index. Outside `[0, size)` it throws
  `IndexOutOfBoundsException(indice)`.
- `remover` deletes the first equal element in one left-shifting pass, then
  clears the vacated slot.

The class keeps the array as an `array<Ranura<T>>`. A `Ranura` is `Nulo` (Java's
`null`) or `Ref(valor)`. A ghost field `Contents: seq<T>` is the logical
contents, and `Valid()` ties it to the array. It also states the capacity
invariant: the capacity is a multiple of 3, at least 3, and at least `size`;
every slot past `size` is `Nulo`. `remover` is proved against the sequence
function `RemoveFirst`. Lemmas say what `RemoveFirst` means:
- the first occurrence is cut out at `IndexOf`;
- the order of the rest is kept;
- an absent element changes nothing;
- exactly one copy leaves the multiset.

Exceptions are values of `Resultado<T>`: `Ok(valor)` or `Lanza(excepcion)`.

On an empty list `remover` skips its loop and then reads `elementos[size-1]`,
that is `elementos[-1]`. That raises `ArrayIndexOutOfBoundsException`. The
model follows the code here: `Remover` returns
`Lanza(ArrayIndexOutOfBounds(-1))` and changes nothing. Removing an absent
element is a silent no-op, and an empty list contains nothing, so the fault is
evidently unintended. This is logged under Findings, and `RemoverSeguro` is the
corrected operation.

**`Persona` and `Documento`** (`personas.dfy` and `documentos.dfy`) are small
mutable classes. Dafny's `fresh`, reference equality and `modifies` frames state
their aliasing facts:
- `Documento.clone` is a field-wise copy into a fresh object.
- `Persona.clone` is a deep copy: a fresh `Persona` with a fresh `Documento`.
- `Persona.copiaSuperficial` is a shallow copy: a fresh `Persona` that shares
  the original's `Documento`.

Client methods prove the consequences:
- After a deep copy, changing the copy's age or document number leaves the
  original's alone.
- After a shallow copy, changing the copy's document number changes the
  original's.

The driver in `EjemploCopiaProfunda.java` has a comment at line 11. It says that
changing the copy's reference field affects the original. The code does a deep
copy at `Persona.java:31`, so the original is not affected.
`Personas.EjemploCopiaProfunda` proves this for the driver's own values.

## Model

| member | source | states |
|---|---|---|
| `Lista.ListaNoGenerica.constructor` | 06_generics/src/ListaNoGenerica.java:4-6 | a new list is empty and valid, over a fresh array of exactly 3 slots |
| `Lista.ListaNoGenerica.EsVacia` | 06_generics/src/ListaNoGenerica.java:8-10 | true iff the logical contents are empty; changes nothing |
| `Lista.ListaNoGenerica.EstructuraLlena` | 06_generics/src/ListaNoGenerica.java:12-14 | true iff the element count equals the array's capacity; changes nothing |
| `Lista.CopyOf` | 06_generics/src/ListaNoGenerica.java:18 | effect of `Arrays.copyOf`: a fresh array of the new length, holding the old prefix that fits, with `null` in the rest |
| `Lista.ListaNoGenerica.Agregar` | 06_generics/src/ListaNoGenerica.java:16-21 | contents become old contents plus the element, `size` grows by 1, the class invariant is kept; the array is replaced by a fresh one `old size + 3` long exactly when it was full, and is the same array otherwise |
| `Lista.ListaNoGenerica.Obtener` | 06_generics/src/ListaNoGenerica.java:23-28 | succeeds iff `0 <= indice < size`, and then yields `Contents[indice]`; otherwise raises `IndexOutOfBounds(indice)`; changes nothing |
| `Lista.ListaNoGenerica.Remover` | 06_generics/src/ListaNoGenerica.java:30-44 | on a non-empty list, contents become `RemoveFirst(old contents, x)` and `size` drops by 1 exactly when `x` was present, with slot `old size - 1` cleared; the array is never replaced, so capacity never shrinks; on an empty list raises `ArrayIndexOutOfBounds(-1)` and leaves the array unchanged |
| `Lista.IndexOf` | 06_generics/src/ListaNoGenerica.java:33-35 | the position where the scan first finds `x` (where `encontrado` becomes true): it holds `x`, and no earlier position does |
| `Lista.RemoveFirstPresent` | 06_generics/src/ListaNoGenerica.java:33-43 | when `x` occurs, removal is the sequence with exactly position `IndexOf(s, x)` cut out, the rest in order, one shorter |
| `Lista.RemoveFirstAbsent` | 06_generics/src/ListaNoGenerica.java:40-43 | when `x` does not occur, removal leaves the contents as they are, so removing it again changes nothing either |
| `Lista.RemoveFirstMultiset` | 06_generics/src/ListaNoGenerica.java:30-43 | removal takes exactly one copy of `x` out of the multiset of elements, or none if absent |
| `Lista.RemoveFirstShift` | 06_generics/src/ListaNoGenerica.java:33-39 | removal seen slot by slot, given the first match `k`: slots before `k` keep their element, slots from `k` on take their right neighbour, one slot fewer in all; this is the array the shifting pass leaves |
| `Lista.ListaNoGenerica.RemoverSeguro` | 06_generics/src/ListaNoGenerica.java:40 | corrected removal: for every list, including the empty one, the contents become `RemoveFirst(old contents, x)`, one shorter exactly when `x` was present |
| `Lista.RemoverEnListaVacia` | 06_generics/src/ListaNoGenerica.java:31-40 | removing anything from a new list raises `ArrayIndexOutOfBounds(-1)` |
| `Lista.AgregarYRemover` | 06_generics/src/ListaNoGenerica.java:16-43 | four appends, the fourth growing the array, then removing `b` (its first occurrence, even when `b == a`), leave `[a, c, d]` readable at 0..2; index 3 raises `IndexOutOfBounds(3)` |
| `Documentos.Documento.constructor` | 04_igualdad_orden_copia/src/Documento.java:4-6 | the number is the argument |
| `Documentos.Documento.SetNumero` | 04_igualdad_orden_copia/src/Documento.java:8-10 | the number becomes the argument; only this document changes |
| `Documentos.Documento.GetNumero` | 04_igualdad_orden_copia/src/Documento.java:12-14 | yields the number and changes nothing |
| `Documentos.Documento.Clone` | 04_igualdad_orden_copia/src/Documento.java:17-19 | a fresh document, distinct from this one, with the same number |
| `Documentos.AsignarYLeer` | 04_igualdad_orden_copia/src/Documento.java:8-14 | `setNumero(n)` followed by `getNumero()` yields `n` |
| `Documentos.ClonIndependiente` | 04_igualdad_orden_copia/src/Documento.java:8-19 | after cloning, setting the clone's number leaves the original's unchanged, and setting the original's leaves the clone's unchanged |
| `Personas.Persona.constructor` | 04_igualdad_y_copia/src/Persona.java:8-12 | name and age are the arguments; the document is fresh and carries the given number |
| `Personas.Persona.Campos` | 04_igualdad_y_copia/src/Persona.java:39-42 | a person whose name, age and document reference are the given ones, as the private constructor plus field assignments, or `super.clone()`, produce |
| `Personas.Persona.SetEdad` | 04_igualdad_y_copia/src/Persona.java:14-16 | the age becomes the argument; nothing else, including the document reference, changes |
| `Personas.Persona.SetNroDocumento` | 04_igualdad_y_copia/src/Persona.java:18-20 | the referenced document's number becomes the argument; the person's own fields, including the reference, are unchanged |
| `Personas.Persona.Clone` | 04_igualdad_y_copia/src/Persona.java:28-32 | deep copy: a fresh person with equal name and age, and a fresh document, distinct from the original's, with the same number |
| `Personas.Persona.CopiaSuperficial` | 04_igualdad_y_copia/src/Persona.java:38-44 | shallow copy: a fresh person with equal name and age sharing the very same document reference |
| `Personas.ModificarCopiaProfunda` | 04_igualdad_y_copia/src/Persona.java:28-32 | after a deep copy, setting the copy's age and document number leaves the original's age and document number unchanged |
| `Personas.ModificarCopiaSuperficial` | 04_igualdad_y_copia/src/Persona.java:38-43 | after a shallow copy, setting the copy's document number sets the original's too; the original's age is unaffected |
| `Personas.EjemploCopiaProfunda` | 04_igualdad_orden_copia/src/EjemploCopiaProfunda.java:3-12 | the driver's values: after the copy is set to 33 and 87654321, Juana keeps 22 and 12345678 |

## Left out

- Element type: `Object` with `equals` becomes a type parameter `T(==)` with Dafny equality. `null` elements are not modelled: Java accepts `agregar(null)`, and a later `remover` whose scan reaches that slot before any match calls `equals` on it and throws `NullPointerException` (once `encontrado` is true, `||` skips the call). With `null` elements excluded, slots `[0, size)` hold references, so the scan never calls `equals` on `null`.
- 32-bit `int` overflow of `size + LONGITUD_BASE` and of `size++` is not modelled. Capacities start at 3 and grow by 3; from capacity 2147483643 the next `size + 3` is 2147483646, which fits in an `int` but exceeds the VM's array-length limit, so `copyOf` fails with `OutOfMemoryError` (next line) before `size + 3` or `size++` can wrap.
- Running out of memory when `Arrays.copyOf` allocates is not modelled.
- `Persona.toString` only formats text, so it is not modelled.
- The `CloneNotSupportedException` → `AssertionError` branches of both `clone` methods are not modelled. Both classes implement `Cloneable`, so those branches cannot run.
- `Object.clone` is modelled by its effect: a fresh object whose fields equal the original's (`Persona.Campos`, `Documento.Clone`).
- The private no-argument `Persona()` constructor is not modelled separately. It leaves `documento` null, and Dafny needs fields to be set. `copiaSuperficial` sets all three fields right after calling it, so `Persona.Campos` is that pair of steps.
- `Persona.Clone` and `Persona.CopiaSuperficial` do not state the copy's string identity. Dafny strings are values, and Java's `nombre` reference is shared in both copies.
- The console output of `EjemploCopiaProfunda.java` is not modelled.
- `EjemploIgualdad.java` and `02_herencia/src/Main.java` are not part of this model. They show string interning and a runtime cast error, which are language behaviour rather than logic of this repository.

## Findings

| source | as written | input that shows it | evidently intended | confidence | as-written member | corrected member |
|---|---|---|---|---|---|---|
| 06_generics/src/ListaNoGenerica.java:40 | after the loop, `remover` reads `elementos[size-1]` even when `size == 0` | `remover(x)` on a new, empty list: index -1 raises `ArrayIndexOutOfBoundsException` | removing from an empty list finds nothing and leaves the list as it is | medium, not executed | `Lista.ListaNoGenerica.Remover`, exhibited by `Lista.RemoverEnListaVacia` | `Lista.ListaNoGenerica.RemoverSeguro` |
