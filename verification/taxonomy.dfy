/**
 * Taxonomic ranks as the `--level` option offers them: `all` or one of the
 * one-letter rank codes D, P, C, O, F, G, S.
 */
module Taxonomy {

  datatype Rank = Domain | Phylum | Class | Order | Family | Genus | Species

  /** The requested level: every rank, or a single one. */
  datatype Level = All | Only(rank: Rank)

  /** The upper-case code a report writes in its rank column. */
  function Code(r: Rank): char {
    match r
    case Domain => 'D'
    case Phylum => 'P'
    case Class => 'C'
    case Order => 'O'
    case Family => 'F'
    case Genus => 'G'
    case Species => 'S'
  }

  /** `lvl.lower()`: the code as a krona taxonomy path writes it (`s__...`). */
  function LowerCode(r: Rank): (c: char)
    ensures c as int == Code(r) as int + 32
  {
    match r
    case Domain => 'd'
    case Phylum => 'p'
    case Class => 'c'
    case Order => 'o'
    case Family => 'f'
    case Genus => 'g'
    case Species => 's'
  }
}
