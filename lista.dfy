/** A growable list of elements over a backing array (ListaNoGenerica).
    The array starts with LongitudBase slots and, when full, is replaced by a
    copy LongitudBase slots longer. Removal deletes the first equal element by
    shifting the tail one slot to the left in place. */
module Lista {

  /** Initial capacity and growth increment of the backing array. */
  const LongitudBase: nat := 3

  /** A slot of the backing array: Java's `null` or a reference to an element. */
  datatype Ranura<T> = Nulo | Ref(valor: T)

  /** The exceptions the list's operations can raise. */
  datatype Excepcion =
    | IndexOutOfBounds(indice: int)       // thrown explicitly by obtener
    | ArrayIndexOutOfBounds(indice: int)  // raised by an array access out of range

  /** What an operation yields: a value, or the exception it raises. */
  datatype Resultado<T> = Ok(valor: T) | Lanza(excepcion: Excepcion)

  // ---------------------------------------------------------------------------
  // Specification of removal on sequences

  /** Position of the first occurrence of `x` in `s`. */
  function IndexOf<T(==)>(s: seq<T>, x: T): (k: nat)
    requires x in s
    ensures k < |s| && s[k] == x && x !in s[..k]
  {
    if s[0] == x then 0
    else
      assert x in s[1..] by { assert s == [s[0]] + s[1..]; }
      var k := 1 + IndexOf(s[1..], x);
      assert s[..k] == [s[0]] + s[1..][..k - 1];
      k
  }

  /** `s` without its first occurrence of `x` (unchanged if `x` is absent). */
  function RemoveFirst<T(==)>(s: seq<T>, x: T): (r: seq<T>)
  {
    if s == [] then []
    else if s[0] == x then s[1..]
    else [s[0]] + RemoveFirst(s[1..], x)
  }

  /** When `x` occurs, exactly its first occurrence is cut out and the other
      elements keep their relative order. */
  lemma {:induction false} RemoveFirstPresent<T>(s: seq<T>, x: T)
    requires x in s
    ensures RemoveFirst(s, x) == s[..IndexOf(s, x)] + s[IndexOf(s, x) + 1..]
    ensures |RemoveFirst(s, x)| == |s| - 1
  {
    if s[0] != x {
      assert x in s[1..] by { assert s == [s[0]] + s[1..]; }
      RemoveFirstPresent(s[1..], x);
      var k := IndexOf(s[1..], x);
      calc {
        RemoveFirst(s, x);
        [s[0]] + RemoveFirst(s[1..], x);
        [s[0]] + (s[1..][..k] + s[1..][k + 1..]);
        { assert [s[0]] + s[1..][..k] == s[..k + 1]; assert s[1..][k + 1..] == s[k + 2..]; }
        s[..k + 1] + s[k + 2..];
      }
    }
  }

  /** When `x` does not occur, removal leaves the sequence as it is. */
  lemma {:induction false} RemoveFirstAbsent<T>(s: seq<T>, x: T)
    requires x !in s
    ensures RemoveFirst(s, x) == s
  {
    if s != [] {
      assert x !in s[1..] by { assert s == [s[0]] + s[1..]; }
      RemoveFirstAbsent(s[1..], x);
    }
  }

  /** Removal takes away one copy of `x` from the multiset of elements, and
      nothing else. */
  lemma {:induction false} RemoveFirstMultiset<T>(s: seq<T>, x: T)
    ensures multiset(RemoveFirst(s, x)) == multiset(s) - multiset{x}
  {
    if s != [] {
      assert s == [s[0]] + s[1..];
      if s[0] != x {
        RemoveFirstMultiset(s[1..], x);
      }
    }
  }

  /** Removal seen slot by slot, given the first occurrence `k`: positions
      before `k` keep their element, positions from `k` on take their right
      neighbour. This is what the shifting pass of Remover leaves in the array. */
  lemma {:induction false} RemoveFirstShift<T>(s: seq<T>, x: T, k: nat)
    requires k < |s| && s[k] == x
    requires forall j :: 0 <= j < k ==> s[j] != x
    ensures |RemoveFirst(s, x)| == |s| - 1
    ensures forall j :: 0 <= j < k ==> RemoveFirst(s, x)[j] == s[j]
    ensures forall j :: k <= j < |s| - 1 ==> RemoveFirst(s, x)[j] == s[j + 1]
  {
    if k > 0 {
      RemoveFirstShift(s[1..], x, k - 1);
    }
  }

  // ---------------------------------------------------------------------------
  // java.util.Arrays.copyOf, by its effect

  /** A fresh array of `newLength` slots holding the prefix of `original` that
      fits, padded with Nulo. */
  method CopyOf<T>(original: array<Ranura<T>>, newLength: nat) returns (copia: array<Ranura<T>>)
    ensures fresh(copia) && copia.Length == newLength
    ensures forall i :: 0 <= i < newLength ==>
              copia[i] == if i < original.Length then original[i] else Nulo
  {
    copia := new Ranura<T>[newLength](_ => Nulo);
    var i := 0;
    while i < newLength && i < original.Length
      invariant 0 <= i <= newLength
      invariant i <= original.Length
      invariant forall j :: 0 <= j < newLength ==>
                  copia[j] == if j < i then original[j] else Nulo
    {
      copia[i] := original[i];
      i := i + 1;
    }
  }

  // ---------------------------------------------------------------------------
  // The list

  class ListaNoGenerica<T(==)> {
    var elementos: array<Ranura<T>>
    var size: int
    /** The logical contents: the elements at positions [0, size). */
    ghost var Contents: seq<T>

    /** Object invariant: the capacity is a positive multiple of LongitudBase
        that covers `size`; the first `size` slots hold Contents in order and
        every slot after them is Nulo. */
    ghost predicate Valid()
      reads this, elementos
    {
      LongitudBase <= elementos.Length && elementos.Length % LongitudBase == 0 &&
      0 <= size <= elementos.Length &&
      |Contents| == size &&
      (forall i :: 0 <= i < size ==> elementos[i] == Ref(Contents[i])) &&
      (forall i :: size <= i < elementos.Length ==> elementos[i] == Nulo)
    }

    constructor ()
      ensures Valid() && fresh(elementos)
      ensures Contents == [] && elementos.Length == LongitudBase
    {
      elementos := new Ranura<T>[LongitudBase](_ => Nulo);
      size := 0;
      Contents := [];
    }

    method EsVacia() returns (vacia: bool)
      requires Valid()
      ensures vacia <==> Contents == []
    {
      vacia := size == 0;
    }

    method EstructuraLlena() returns (llena: bool)
      requires Valid()
      ensures llena <==> |Contents| == elementos.Length
    {
      llena := size == elementos.Length;
    }

    /** Appends `elemento`; the array is replaced by a copy LongitudBase slots
        longer exactly when it is full. */
    method Agregar(elemento: T)
      requires Valid()
      modifies this, elementos
      ensures Valid()
      ensures Contents == old(Contents) + [elemento] && size == old(size) + 1
      ensures old(size) == old(elementos.Length) ==>
                fresh(elementos) && elementos.Length == old(size) + LongitudBase
      ensures old(size) < old(elementos.Length) ==> elementos == old(elementos)
    {
      var llena := EstructuraLlena();
      if llena {
        elementos := CopyOf(elementos, size + LongitudBase);
      }
      elementos[size] := Ref(elemento);
      size := size + 1;
      Contents := Contents + [elemento];
    }

    /** The element at `indice`, or IndexOutOfBounds(indice) outside [0, size). */
    method Obtener(indice: int) returns (r: Resultado<T>)
      requires Valid()
      ensures r.Ok? <==> 0 <= indice < |Contents|
      ensures r.Ok? ==> r.valor == Contents[indice]
      ensures r.Lanza? ==> r.excepcion == IndexOutOfBounds(indice)
    {
      if indice < 0 || indice >= size {
        return Lanza(IndexOutOfBounds(indice));
      }
      r := Ok(elementos[indice].valor);
    }

    /** Removes the first element equal to `elemento` in one left-shifting pass
        and clears the vacated slot. On an empty list the final check reads
        slot size - 1 = -1 and the access faults. */
    method Remover(elemento: T) returns (r: Resultado<()>)
      requires Valid()
      modifies elementos, this`size, this`Contents
      ensures Valid() && elementos == old(elementos)
      ensures old(size) == 0 ==>
                r == Lanza(ArrayIndexOutOfBounds(-1)) && unchanged(elementos) && size == 0
      ensures old(size) > 0 ==>
                r == Ok(()) && Contents == RemoveFirst(old(Contents), elemento)
      ensures size == if elemento in old(Contents) then old(size) - 1 else old(size)
      ensures elemento in old(Contents) ==> elementos[old(size) - 1] == Nulo
    {
      ghost var s := Contents;
      ghost var k := 0;  // where the first match is, once found
      var i := 0;
      var encontrado := false;
      while i < size - 1
        invariant Contents == s && size == |s| <= elementos.Length
        invariant size == 0 ==> unchanged(elementos)
        invariant 0 <= i <= size && (size > 0 ==> i <= size - 1)
        invariant 0 <= k <= i && (encontrado ==> k < i && s[k] == elemento) && (!encontrado ==> k == i)
        invariant forall j :: 0 <= j < k ==> s[j] != elemento && elementos[j] == Ref(s[j])
        invariant forall j :: k <= j < i ==> elementos[j] == Ref(s[j + 1])
        invariant forall j :: i <= j < size ==> elementos[j] == Ref(s[j])
        invariant forall j :: size <= j < elementos.Length ==> elementos[j] == Nulo
      {
        if encontrado || elementos[i].valor == elemento {
          encontrado := true;
          elementos[i] := elementos[i + 1];
        } else {
          k := k + 1;
        }
        i := i + 1;
      }
      if size - 1 < 0 {
        // elementos[size - 1] with size == 0
        return Lanza(ArrayIndexOutOfBounds(size - 1));
      }
      if encontrado || elementos[size - 1].valor == elemento {
        elementos[i] := Nulo;
        size := size - 1;
        Contents := RemoveFirst(s, elemento);
        RemoveFirstShift(s, elemento, k);
        assert forall j :: 0 <= j < size ==> elementos[j] == Ref(Contents[j]);
      } else {
        assert elemento !in s;
        RemoveFirstAbsent(s, elemento);
      }
      r := Ok(());
    }

    /** Remover with the empty list treated as nothing to remove. */
    method RemoverSeguro(elemento: T)
      requires Valid()
      modifies elementos, this`size, this`Contents
      ensures Valid() && elementos == old(elementos)
      ensures Contents == RemoveFirst(old(Contents), elemento)
      ensures |Contents| == if elemento in old(Contents) then |old(Contents)| - 1 else |old(Contents)|
    {
      if size > 0 {
        var _ := Remover(elemento);
      }
    }
  }

  // ---------------------------------------------------------------------------
  // Client scenarios

  /** Removing from a freshly created list raises ArrayIndexOutOfBounds(-1). */
  method RemoverEnListaVacia<T(==)>(x: T) returns (r: Resultado<()>)
    ensures r == Lanza(ArrayIndexOutOfBounds(-1))
  {
    var lista := new ListaNoGenerica<T>();
    r := lista.Remover(x);
  }

  /** Four appends (the fourth grows the array), then removing `b` from
      [a, b, c, d] leaves [a, c, d] in order; when `a == b` the first copy,
      at position 0, is the one removed, with the same result. */
  method AgregarYRemover<T(==)>(a: T, b: T, c: T, d: T) returns (r0: Resultado<T>, r1: Resultado<T>, r2: Resultado<T>, r3: Resultado<T>)
    ensures r0 == Ok(a) && r1 == Ok(c) && r2 == Ok(d)
    ensures r3 == Lanza(IndexOutOfBounds(3))
  {
    var lista := new ListaNoGenerica<T>();
    lista.Agregar(a);
    lista.Agregar(b);
    lista.Agregar(c);
    lista.Agregar(d);
    var _ := lista.Remover(b);
    assert lista.Contents == [a, c, d];
    r0 := lista.Obtener(0);
    r1 := lista.Obtener(1);
    r2 := lista.Obtener(2);
    r3 := lista.Obtener(3);
  }
}
