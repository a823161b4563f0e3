/** The Python values that appear in GASpy's documents and settings dictionaries. */
module Values {
  import opened OrderedDicts

  /** An ASE `Atoms` object, reduced to its chemical symbols (positions and constraints are not modelled). */
  datatype Atoms = Atoms(symbols: seq<string>)

  datatype Value =
    | Null                              // None
    | Bool(b: bool)
    | Int(i: int)
    | Float(x: real)                    // a float, by the decimal value of its literal
    | Str(s: string)
    | List(items: seq<Value>)
    | Dict(entries: seq<(string, Value)>)
    | Pickled(atoms: Atoms)             // `pickle.dumps(atoms).encode('hex')`, kept opaque

  /** A flat Mongo document. */
  type Doc = ODict<Value>

  /** The Python exceptions the modelled code can raise. */
  datatype Exception =
    | KeyError(key: string)
    | TypeError(key: string)            // a keyword argument given twice
    | AttributeError                    // `.keys()` on something that is not a dictionary
    | ValueError                        // `islice` with a negative stop
}
