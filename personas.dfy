/** A person with a name, an age and a reference to a Documento. `Clone` is a
    deep copy (the copy gets its own document); `CopiaSuperficial` is a
    shallow copy (the copy shares the original's document). */
module Personas {
  import opened Documentos

  class Persona {
    var nombre: string
    var edad: int
    var documento: Documento

    constructor (nombre: string, edad: int, nroDocumento: int)
      ensures this.nombre == nombre && this.edad == edad
      ensures fresh(documento) && documento.numero == nroDocumento
    {
      this.nombre := nombre;
      this.edad := edad;
      this.documento := new Documento(nroDocumento);
    }

    /** A person whose three fields are the given values, `documento` taken as
        the same reference: the effect of the private no-argument constructor
        followed by field assignments, and of Object.clone's field-wise copy. */
    constructor Campos(nombre: string, edad: int, documento: Documento)
      ensures this.nombre == nombre && this.edad == edad && this.documento == documento
    {
      this.nombre := nombre;
      this.edad := edad;
      this.documento := documento;
    }

    method SetEdad(edad: int)
      modifies this`edad
      ensures this.edad == edad
    {
      this.edad := edad;
    }

    /** Changes the number of the referenced document, not the reference. */
    method SetNroDocumento(nroDocumento: int)
      modifies documento
      ensures documento.numero == nroDocumento
      ensures unchanged(this)
    {
      documento.SetNumero(nroDocumento);
    }

    /** Deep copy: a fresh person with a fresh document of the same number. */
    method Clone() returns (copia: Persona)
      ensures fresh(copia) && fresh(copia.documento)
      ensures copia.nombre == nombre && copia.edad == edad
      ensures copia.documento != documento && copia.documento.numero == documento.numero
    {
      copia := new Persona.Campos(nombre, edad, documento);
      copia.documento := documento.Clone();
    }

    /** Shallow copy: a fresh person sharing this person's document. */
    method CopiaSuperficial() returns (copia: Persona)
      ensures fresh(copia)
      ensures copia.nombre == nombre && copia.edad == edad
      ensures copia.documento == documento
    {
      copia := new Persona.Campos(nombre, edad, documento);
    }
  }

  /** Changing a deep copy's age or document number leaves the original's as
      they were. The last postcondition already follows from the empty
      modifies clause; what carries the fact is that the body needs no
      `modifies p.documento`, because Clone promises `fresh(copia.documento)`. */
  method ModificarCopiaProfunda(p: Persona, edad: int, nroDocumento: int) returns (copia: Persona)
    ensures copia != p && copia.documento != p.documento
    ensures copia.edad == edad && copia.documento.numero == nroDocumento
    ensures p.edad == old(p.edad) && p.documento.numero == old(p.documento.numero)
  {
    copia := p.Clone();
    copia.SetEdad(edad);
    copia.SetNroDocumento(nroDocumento);
  }

  /** Changing a shallow copy's document number changes the original's too,
      because the document is shared; its age stays the original's own. */
  method ModificarCopiaSuperficial(p: Persona, edad: int, nroDocumento: int) returns (copia: Persona)
    modifies p.documento
    ensures copia != p && copia.documento == p.documento
    ensures copia.edad == edad && p.edad == old(p.edad)
    ensures p.documento.numero == nroDocumento
  {
    copia := p.CopiaSuperficial();
    copia.SetEdad(edad);
    copia.SetNroDocumento(nroDocumento);
  }

  /** The driver's scenario: Juana, 22, document 12345678 is deep-copied and
      the copy gets age 33 and document 87654321; the original keeps both of
      its values. */
  method EjemploCopiaProfunda() returns (juana: Persona, copiaJuana: Persona)
    ensures juana.nombre == "Juana" && juana.edad == 22 && juana.documento.numero == 12345678
    ensures copiaJuana.nombre == "Juana" && copiaJuana.edad == 33
    ensures copiaJuana.documento.numero == 87654321
  {
    juana := new Persona("Juana", 22, 12345678);
    copiaJuana := juana.Clone();
    copiaJuana.SetEdad(33);
    copiaJuana.SetNroDocumento(87654321);
  }
}
