/** The record and tag types the engine exchanges with its callers. */
module Defs {

  /** A provenance tag (project, standard library, site package, ...). The
      engine never inspects it: it copies its `value` into every record. */
  datatype Source = Source(value: int)

  /** The classification of a package location. Only the single-file and the
      compiled cases are singled out by the engine; `DirectoryPackage` stands for every
      other tag, which the engine treats as a directory package. */
  datatype PackageType = SingleFile | Compiled | DirectoryPackage

  /** One importable name: the bare identifier, the module that defines it,
      the package it is imported through, and the provenance value. */
  datatype Name = Name(name: string, modname: string, package: string, source: int)
}
