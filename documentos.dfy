/** An identity document: a mutable object with one integer field. Cloning
    gives a fresh object with the same number. */
module Documentos {

  class Documento {
    var numero: int

    constructor (numero: int)
      ensures this.numero == numero
    {
      this.numero := numero;
    }

    method SetNumero(numero: int)
      modifies this
      ensures this.numero == numero
    {
      this.numero := numero;
    }

    /** Reads the number; a method with no modifies clause changes nothing. */
    method GetNumero() returns (n: int)
      ensures n == numero
    {
      n := numero;
    }

    /** Object.clone's field-wise copy: a distinct object with equal fields. */
    method Clone() returns (copia: Documento)
      ensures fresh(copia) && copia != this
      ensures copia.numero == numero
    {
      copia := new Documento(numero);
    }
  }

  /** Setting a number and reading it back yields that number. */
  method AsignarYLeer(d: Documento, n: int) returns (leido: int)
    modifies d
    ensures leido == n
  {
    d.SetNumero(n);
    leido := d.GetNumero();
  }

  /** A clone and its original evolve separately: setting the clone's number
      leaves the original's as it was, and setting the original's leaves the
      clone's as it was. */
  method ClonIndependiente(d: Documento, n: int, m: int)
      returns (d2: Documento, delOriginal: int, delClon: int)
    modifies d
    ensures fresh(d2)
    ensures delOriginal == old(d.numero) && delClon == n
    ensures d.numero == m && d2.numero == n
  {
    d2 := d.Clone();
    d2.SetNumero(n);
    delOriginal := d.GetNumero();
    d.SetNumero(m);
    delClon := d2.GetNumero();
  }
}
