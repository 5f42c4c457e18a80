# gchemol-readwrite file formats, modelled in Dafny

This project models the text side of gchemol-readwrite. That library reads and
writes molecules in a range of chemistry file formats. The model covers:

- **The format registry** (`src/formats.rs`), in module `Formats`:
  - the fixed backend order xyz, pxyz, mol2, cif, poscar, gaussian, sdf, pdb;
  - lookup by format tag;
  - guessing a format from the file suffix, with the POSCAR/CONTCAR file-name override;
  - the batch read, which keeps the records that parse and drops the rest;
  - writing a list of molecules to one file.
- **The line grammars and their formatters** of XYZ and plain XYZ, CIF, POSCAR,
  MOL2, PDB, Gaussian input, SDF, Gaussian formatted checkpoint headers,
  extended XYZ and CAR. They are modules `Xyz`, `XyzRoundTrip`, `Cif`, `Vasp`,
  `Mol2`, `Pdb`, `Gaussian`, `Sdf`, `GaussianFchk`, `ExtXyz` and `Car`.
  - Parsers are nom-style functions on characters. Each returns `NoParse` or the
    value with the rest of the input (module `Nom`).
  - Formatters build the text line by line. Most are methods with loops, proved
    against a function that states the whole text.
  - Read-back lemmas show that what a formatter writes parses back to the same
    atoms, bonds and cell.
- **The molecule-assembly rules** the readers share:
  - three `TV` dummy atoms become a lattice;
  - Gaussian frozen code `-1` freezes all three axes;
  - POSCAR flags `T`/`F` are the negation of the freeze mask;
  - a stated atom count that differs from the parsed one changes nothing;
  - atoms are numbered from 1.
- **The record boundaries** handed to the partition engine:
  - XYZ `Need`/`Done` arithmetic;
  - a blank line, `ENDMDL` or `--link1--` ending a record;
  - `data_` or `@<TRIPOS>MOLECULE` starting one (module `Partition`).
- **The template projection** `renderable` (`src/template.rs`), in module
  `Template`. It groups atoms into species in first-seen order and gives each
  atom a 1-based element index.

Numbers are kept as their decimal text (`Numeral`). A float field is a numeral
when it matches nom's float grammar. Integers are `nat`, with a decimal print
and parse pair proved inverse (module `Numerals`).

gchemol_core (lattice arithmetic, the element table, bond-order display, atomic
numbers) is foreign code. It reaches the model as the function values of a
`Core` record (module `Chem`), and the lemmas hold for every choice of them.
`Atom::new` turns the symbol it is given into the standard one (`SI` becomes
`Si`); the model's `Chem.NewAtom` applies `standardSymbol` from `Core` in the
same way. Every reader builds its atoms through it, so a read-back lemma
promises the written symbol back only when it is already standard
(`Chem.IsStandard`).
The parsers and formatters that the registry dispatches to are parameters of
`Formats` in the same way. File system access becomes text in and text out.

The primitives that gchemol_parser provides are not part of this model. They
are given definitions in `Nom` that follow their documented behaviour:

- `read_line`: the rest of the line, including `""` at the end of the input;
- `eol`: trailing blanks, then a line ending;
- `xyz_array`: three floats separated by blanks;
- `read_usize`, `unsigned_digit` and `signed_digit`;
- `not_space`;
- `take_s`: exactly n characters, failing when fewer are left.

The partition engine (`Terminated`/`Preceded` in gchemol_parser) is modelled in
`Partition` as an abstract split of a line sequence on a predicate.

For a CIF value with a standard uncertainty, such as `18.094(2)`, `double_cif`
(`src/formats/cif.rs:17-34`) appends the digits in parentheses to the number,
giving `18.0942`. `Cif.DoubleCif` and `Cif.DoubleCifUncertain` state that form.

## Model

| member | source | states |
|---|---|---|
| Formats.Rank | src/formats.rs:193-206 | every backend has a place in the fixed order in which backends are tried |
| Formats.SuffixParsable | src/formats.rs:45-55 | the default `parsable` loop answers true iff the lower-cased path ends with one of the lower-cased extensions |
| Formats.IsParsable | src/formats.rs:43-55 | a backend's `parsable` is its own test for POSCAR and the extension test for every other backend |
| Formats.FirstIndex | src/formats.rs:210-216 | the loop stops at the first backend accepted, and runs to the end when none is |
| Formats.FirstOfIs | src/formats.rs:208-229 | a search answers `b` iff `b` is accepted and every backend tried before it is not |
| Formats.FirstOfNone | src/formats.rs:215-228 | a search answers nothing iff no backend is accepted |
| Formats.GuessFromFtype | src/formats.rs:208-217 | the loop over backends computes `FromFtype` |
| Formats.GuessFromPath | src/formats.rs:220-229 | the loop over backends computes `FromPath` |
| Formats.GuessFormat | src/formats.rs:232-235 | the tag is tried first and the path only when the tag gives nothing |
| Formats.FTypeInjective | src/formats.rs:193-206 | no two backends share a file type |
| Formats.FromFtypeIs | src/formats.rs:208-217 | a tag names backend `b` iff, lower-cased, it is `b`'s file type, so the tag's case never matters |
| Formats.FromFtypeAny | src/formats.rs:208-217 | a tag whose lower case is no file type names no backend |
| Formats.FromPathIs | src/formats.rs:220-229 | guessing from a path gives the first backend in order that claims it, and nothing iff none does |
| Formats.GuessNone | src/formats.rs:232-235 | a guess finds nothing iff the tag (when given) names no backend and no backend claims the path |
| Formats.DotSuffix | src/formats.rs:49 | of two dotted extensions, one can end a name that ends with the other only if they are equal |
| Formats.ListedExtension | src/formats.rs:36 | every extension listed by a backend other than POSCAR is a lower-case dotted word other than `.poscar` and `.vasp` |
| Formats.ExtensionsDisjoint | src/formats.rs:193-206 | no extension is listed by two backends |
| Formats.NotListed | src/formats.rs:45-55 | a name ending in a dotted word a backend does not list is not claimed by it |
| Formats.ExtensionSelects | src/formats.rs:220-229 | a file named with an extension of a backend other than POSCAR is read by that backend, whatever its directory: no earlier backend shadows it |
| Formats.PoscarRejects | src/formats/vasp_input.rs:380-398 | the POSCAR backend does not claim a name ending in another backend's extension |
| Formats.PoscarSelects | src/formats.rs:220-229 | a file whose extension is `poscar` or `vasp`, in any case, is read as POSCAR |
| Formats.GuessExamples | src/formats.rs:246-259 | `/tmp/test.xyz` and `/tmp/test` with tag `text/xyz` guess XYZ; `/tmp/test.poscar` guesses POSCAR |
| Formats.MixedCaseTag | src/formats.rs:211 | the tag `Text/XYZ` names the XYZ backend when guessing |
| Formats.ParserForIs | src/formats.rs:97-107 | every backend has a parser, reached by its own file type exactly and by no other tag |
| Formats.MixedCaseTagNotParsed | src/formats.rs:97-106 | reading with the tag `Text/XYZ` finds no parser: that match is case-sensitive |
| Formats.KeepOk | src/formats.rs:118-124 | the molecules kept are exactly those of the successful records, at most one per record |
| Formats.KeepOkAppend | src/formats.rs:108-124 | dropping failures distributes over the chained record streams |
| Formats.KeepOkCount | src/formats.rs:118-124 | one molecule is kept per successful record, and each failure is dropped |
| Formats.KeepOkAll | src/formats.rs:118-124 | without failures every record yields its molecule, in order |
| Formats.ParseRecords | src/formats.rs:73-81 | each record of the text is parsed by the backend, in order |
| Formats.ParseMoleculesFrom | src/formats.rs:84-125 | an unknown tag is the error `No available parser found`; otherwise the molecules are those of the records that parse |
| Formats.GuessedIsParsed | src/formats.rs:147-158 | a backend found from the path always has a parser, so reading a claimed file fails only record by record |
| Formats.WrittenPrefix | src/formats.rs:171-174 | when the first `n` molecules format, their texts are written in order; the outcome is success after all, or the error of the first that fails |
| Formats.WrittenAppend | src/formats.rs:171-174 | once some molecules are written without failure, writing more never changes their text |
| Formats.WriteChemicalFile | src/formats.rs:164-180 | no file and the error `No suitable chemical file format found for` the quoted path when no backend is guessed; otherwise the file holds the texts written until the first failure |
| Formats.WriteAll | src/formats.rs:171-174 | the loop appends each formatted molecule in turn, the first failure ending it |
| Formats.FormatAsChemicalFile | src/formats.rs:184-189 | the text is the one of the backend whose file type is the lower-cased tag, or the error `No suitable chemical file format found for` the tag |
| Xyz.BuildMol | src/formats/xyz.rs:122-155 | the loop over atom lines yields the molecule of `MolFromLines`: lines naming an element become atoms numbered from 1 in order, `TV` lines are set aside, and their positions become the lattice only when there are exactly three |
| Xyz.KeptAtomsAreElements | src/formats/xyz.rs:134-143 | every atom `build_mol` keeps is `Atom::new` of a line whose symbol is an element, so no dummy atom survives |
| Xyz.FormatMolecule | src/formats/xyz.rs:172-210 | the XYZ writer's loop produces `XyzText`: count line (`natoms`, plus 3 when periodic), title, one row per atom with velocity columns only when some atom moves, three `TV` rows for a lattice |
| Xyz.FormatPlain | src/formats/xyz.rs:244-263 | the plain writer produces each atom's display text on its own line, the `TV` rows, then a blank separator line |
| Xyz.ReadNext | src/formats/xyz.rs:268-284 | an error iff the first line, trimmed, is not a count; done with all lines once there are count+2 of them; otherwise asks for exactly the missing lines |
| Xyz.NeedThenDone | src/formats/xyz.rs:273-277 | supplying the lines asked for completes the record |
| XyzRoundTrip.VelocityTail | src/formats/xyz.rs:113-118 | the written velocity columns hold no line break and `parse_velocities` reads them back as the velocity; without velocities nothing is written |
| XyzRoundTrip.AtomRowReads | src/formats/xyz.rs:10-18 | a written atom row (`{:6} {:-18.6}...`) is read by `read_atom_xyz` as its symbol, position and velocity columns |
| XyzRoundTrip.TvRowReads | src/formats/xyz.rs:202-207 | a written `TV` row reads back as a `TV` line carrying the lattice vector |
| XyzRoundTrip.WrittenRowsRead | src/formats/xyz.rs:37-39 | `many1(read_atom_xyz)` reads all written rows back, in order, and consumes the text |
| XyzRoundTrip.KeptAtomsAppendDummies | src/formats/xyz.rs:134-141 | appending non-element lines never changes the atoms kept |
| XyzRoundTrip.TvVectorsAppend | src/formats/xyz.rs:138 | the `TV` vectors of two line runs are those of each, in order |
| XyzRoundTrip.TvLinesVectors | src/formats/xyz.rs:147-150 | the three written `TV` lines rebuild exactly the lattice they came from |
| XyzRoundTrip.KeptWrittenAtoms | src/formats/xyz.rs:124-145 | of the written lines, `build_mol` keeps one atom per written atom with the same symbol, position and (if written) velocity |
| XyzRoundTrip.WrittenLattice | src/formats/xyz.rs:147-153 | the lattice read back from the written text is the molecule's lattice, or none |
| XyzRoundTrip.BuildWritten | src/formats/xyz.rs:122-155 | `build_mol` of the written lines has the atom count and lattice of the original, atoms numbered from 1 and equal to the originals |
| XyzRoundTrip.HeaderReads | src/formats/xyz.rs:55-60 | the count line reads as the count and the title line as the title |
| XyzRoundTrip.ReadWritten | src/formats/xyz.rs:55-69 | `read_atoms_xyz` of the written text gives the trimmed title and the written lines, consuming everything |
| XyzRoundTrip.XyzFormatParse | src/formats/xyz.rs:94-111 | formatting then parsing as XYZ succeeds and restores the atom count, every (standard) symbol, position and written velocity in order, the trimmed title and the lattice |
| XyzRoundTrip.StatedCountIgnored | src/formats/xyz.rs:61-66 | the stated atom count never changes what is read (a mismatch only warns) |
| Vasp.Repeat | src/formats/vasp_input.rs:171-173 | an element name repeated exactly `n` times |
| Vasp.Zip | src/formats/vasp_input.rs:170 | names and counts paired position by position, as many pairs as the shorter list |
| Vasp.ExpandSymbols | src/formats/vasp_input.rs:167-174 | the nested loop yields `Expand(Zip(names, counts))`: each name repeated by its count, in order |
| Vasp.FreezeInverse | src/formats/vasp_input.rs:188-192 | freezing is the negation of the mobility flags, so applying it twice gives the flags back |
| Vasp.PoscarAtom | src/formats/vasp_input.rs:180-192 | an atom has the standard form of its symbol, is at rest, has Cartesian position through the scaled cell when coordinates are direct, and takes the negated flags as freezing only under selective dynamics with flags present |
| Vasp.PoscarAtoms | src/formats/vasp_input.rs:176-180 | one atom per symbol/position pair, up to the shorter of the two lists (a mismatch only warns) |
| Vasp.PoscarMolecule | src/formats/vasp_input.rs:158-196 | trimmed title, no bonds, the cell scaled by the scale factor, atoms numbered from 1 and equal to `PoscarAtoms` of the expanded symbols |
| Vasp.ParseText | src/formats/vasp_input.rs:147-156 | parsing succeeds iff the header reads and at least one position line follows |
| Vasp.AddAtoms | src/formats/vasp_input.rs:180-194 | the `add_atom(i+1, a)` loop on an empty molecule numbers the atoms from 1 in order |
| Vasp.ParseMolecule | src/formats/vasp_input.rs:147-200 | the loop-based reader returns exactly `ParseText` |
| Vasp.PushRunSound | src/formats/vasp_input.rs:330-337 | one more symbol keeps the runs proper and appends that symbol to their expansion |
| Vasp.RleSound | src/formats/vasp_input.rs:321-343 | `count_symbols` describes its input: its runs expand back to the symbols, and neighbouring runs have different symbols and positive counts |
| Vasp.RleAppendRun | src/formats/vasp_input.rs:330-340 | a run of a new symbol appended to the input adds exactly that run |
| Vasp.RleUnique | src/formats/vasp_input.rs:321-343 | proper runs are the only encoding with that expansion: encoding their expansion gives them back |
| Vasp.CountSymbols | src/formats/vasp_input.rs:321-343 | the pairwise loop over neighbours computes `Rle(symbols)` for a non-empty list |
| Vasp.RunRows | src/formats/vasp_input.rs:278-283 | the loop over runs builds the names line and the counts line, each field centred in 4 columns after a blank |
| Vasp.PoscarText | src/formats/vasp_input.rs:261-318 | writing succeeds iff the molecule has a lattice and at least one atom |
| Vasp.FormatMolecule | src/formats/vasp_input.rs:261-318 | the writer's loops produce `PoscarText` |
| Vasp.PositionRowReads | src/formats/vasp_input.rs:120-128 | a written position line (`{:18.12}` columns and `T`/`F` flags) reads back as its fractional coordinates and flags, and the flags give back the atom's freezing |
| Vasp.FlagsRead | src/formats/vasp_input.rs:64-71 | the flags written for a freezing mask read back as its negation |
| Vasp.FlagLettersRead | src/formats/vasp_input.rs:64-77 | three `T`/`F` letters separated by blanks read as three booleans, `T` being true |
| Vasp.ExtensionDecides | src/formats/vasp_input.rs:382-387 | a file name with an extension is a POSCAR file iff the lower-cased extension is `poscar` or `vasp` |
| Vasp.NameDecides | src/formats/vasp_input.rs:388-398 | a file name without an extension is a POSCAR file iff, upper-cased, it starts with `CONTCAR` or `POSCAR` |
| Cif.Uncertainty | src/formats/cif.rs:20 | the parenthesised uncertainty consumes input when it parses |
| Cif.DoubleCif | src/formats/cif.rs:17-34 | a CIF number consumes input when it parses |
| Cif.DoubleCifPlain | src/formats/cif.rs:38-39 | a number without an uncertainty reads as itself |
| Cif.DoubleCifUncertain | src/formats/cif.rs:26-31 | a number with an uncertainty reads as the number with the uncertainty digits appended (`0.391(6)` as `0.3916`) |
| Cif.CellParam | src/formats/cif.rs:46-52 | a `_cell_` line consumes input when it parses |
| Cif.Lookup | src/formats/cif.rs:63 | a key found in the collected map was paired with its value, and a key is missing iff no pair has it |
| Cif.LookupDistinct | src/formats/cif.rs:63 | with distinct keys, a key's value is the one paired with it |
| Cif.LookupReordered | src/formats/cif.rs:63 | with distinct keys, the order of the pairs does not change any lookup |
| Cif.CellFromPairs | src/formats/cif.rs:60-76 | the six cell parameters are those paired with `length_a` ... `angle_gamma` |
| Cif.CellFromPairsOk | src/formats/cif.rs:66-73 | the cell is read iff all six parameters are present (a missing one is the indexing panic) |
| Cif.CellOrderIrrelevant | src/formats/cif.rs:78-93 | the order of the cell parameter lines does not matter |
| Cif.ColumnName | src/formats/cif.rs:97-100 | a column name line consumes input when it parses |
| Cif.Items | src/formats/cif.rs:130 | the blank-separated items of a row consume input |
| Cif.SiteRow | src/formats/cif.rs:129-132 | a site row consumes input when it parses |
| Cif.ColumnIndex | src/formats/cif.rs:162 | a name maps to the last column of that name, and to none iff no column has it |
| Cif.ColumnsOf | src/formats/cif.rs:159-169 | the table exists iff the `fract_x`, `fract_y`, `fract_z` and `label` columns do; each index names its column, and a symbol column is used iff `type_symbol` is present |
| Cif.RowAtom | src/formats/cif.rs:180-196 | a row gives an atom iff its three coordinates parse, with the standard form of the row's symbol, its label and those coordinates |
| Cif.WellFormed | src/formats/cif.rs:175-178 | the rows kept have as many items as there are columns |
| Cif.RowAtomsKept | src/formats/cif.rs:173-197 | one atom per well-formed row, in order, the malformed rows skipped |
| Cif.SiteTable | src/formats/cif.rs:159-171 | the column table read fits the rows it is used on |
| Cif.ParseAtoms | src/formats/cif.rs:153-200 | the loop over rows computes `AtomSites`: malformed rows skipped, a bad coordinate aborting |
| Cif.RowAtomsAbort | src/formats/cif.rs:183-185 | once a row's coordinate fails, the whole read fails with that error |
| Cif.ApplyPart | src/formats/cif.rs:245-256 | a part keeps the title, sets the lattice from its cell iff it names `_cell_length_a`, and otherwise leaves the lattice alone |
| Cif.ParseMolecule | src/formats/cif.rs:240-260 | the loop over `loop_` parts computes `ParseMoleculeText` |
| Cif.ApplyPartsShape | src/formats/cif.rs:244-257 | after all parts the title is kept, the molecule is periodic iff some part names the cell, and the atoms are numbered from 1 |
| Cif.ReadCifShape | src/formats/cif.rs:381-390 | reading succeeds only for a periodic structure; the title is the word after `data_` and the atoms are numbered from 1 |
| Cif.SiteNamesDistinct | src/formats/cif.rs:302-312 | unlabelled atoms of the same element get different site labels |
| Cif.SiteLines | src/formats/cif.rs:303-312 | one site line per atom, in order |
| Cif.CifText | src/formats/cif.rs:265-351 | writing fails iff the molecule has no lattice |
| Cif.CountStep | src/formats/cif.rs:306-308 | one more atom raises its element's count by one, and an unlabelled atom's site label is its symbol and that count |
| Cif.FormatMolecule | src/formats/cif.rs:265-351 | the writer's loop with its element counter produces `CifText` |
| Cif.CifRecords | src/formats/cif.rs:393-408 | lines before the first `data_` line are skipped, each `data_` line opens one record, and no record holds a second one |
| Mol2.BondCodeKinds | src/formats/mol2.rs:187-196 | a bond type code is read case-insensitively: `2`/`3` double/triple, `ar`/`am` aromatic, `nc` dummy, `wk` partial, and every other code (`1` included) single; no code gives a quadruple bond |
| Mol2.BondOrder | src/formats/mol2.rs:214-224 | the written code is one or two alphanumeric characters, so it fits the 3-column bond type field |
| Mol2.BondOrderRoundTrip | src/formats/mol2.rs:187-224 | every bond kind written and read back is itself, except a quadruple bond (`4`), which reads back as single |
| Mol2.MmType | src/formats/mol2.rs:52-60 | a parsed atom type has a non-empty element symbol and consumes input |
| Mol2.TriposType | src/formats/mol2.rs:94-107 | the Tripos type given to an element is a non-empty alphanumeric word |
| Mol2.MmTypeTyped | src/formats/mol2.rs:52-60 | `C.ar` reads as element `C` with force-field type `ar` |
| Mol2.MmTypePlain | src/formats/mol2.rs:52-60 | a bare element symbol reads with no force-field type |
| Mol2.AtomTypeReads | src/formats/mol2.rs:52-60 | the atom type written for an element (e.g. `C.3`) reads back with that element as its symbol part |
| Mol2.SubstAndCharge | src/formats/mol2.rs:78-89 | the optional substructure fields consume input when they parse |
| Mol2.ReadAtomRecord | src/formats/mol2.rs:13-29 | an atom record consumes input when it parses |
| Mol2.Sited | src/formats/mol2.rs:277 | `add_atoms_from` keeps each atom under its serial number, in order |
| Mol2.ParseMolecule | src/formats/mol2.rs:418-421 | parsing succeeds iff `read_molecule` parses the text |
| Mol2.AtomRows | src/formats/mol2.rs:354-356 | one atom line per site, in storage order, each under the site's serial number |
| Mol2.BondRows | src/formats/mol2.rs:361-371 | one bond line per bond, numbered from 1 by a running serial number |
| Mol2.BondBlock | src/formats/mol2.rs:359-372 | the BOND section is written iff the molecule has bonds, as its header then the bond lines |
| Mol2.CrysinBlock | src/formats/mol2.rs:375-390 | the CRYSIN section is written iff the molecule has a lattice, as its header then one cell line |
| Mol2.FormatMolecule | src/formats/mol2.rs:335-396 | the writer's appends produce the whole text `Mol2Text` and never fail |
| Mol2.WriteAtoms | src/formats/mol2.rs:354-356 | the atom loop appends exactly the atom lines |
| Mol2.WriteBonds | src/formats/mol2.rs:359-372 | the bond loop appends the BOND section, or nothing for a molecule without bonds |
| Mol2.CountsRowReads | src/formats/mol2.rs:294-300 | the counts line written by `{:>5} {:>5}` reads back as the atom and bond counts |
| Mol2.AtomRowReads | src/formats/mol2.rs:13-29 | an atom line written by `format_atom` reads back as its serial number, label, position and the standard form of its element symbol |
| Mol2.AtomBlockReads | src/formats/mol2.rs:128-132 | the ATOM section as written reads back atom by atom, stopping at the next section or a blank line |
| Mol2.AtomRowsRead | src/formats/mol2.rs:130 | `many1(read_atom_record)` over written atom lines gives back every atom from the `m`-th on |
| Mol2.BondRowReads | src/formats/mol2.rs:177-200 | a bond line written by the formatter reads back as both atom numbers and the bond kind (quadruple as single) |
| Mol2.BondBlockReads | src/formats/mol2.rs:156-160 | the BOND section as written reads back bond by bond, stopping at the next section or a blank line |
| Mol2.BondRowsRead | src/formats/mol2.rs:158 | `many0(read_bond_record)` over written bond lines gives back every bond from the `m`-th on |
| Mol2.Mol2Records | src/formats/mol2.rs:424-438 | the MOL2 stream is cut at each `@<TRIPOS>MOLECULE` line: lines before the first are skipped, one record per header, nothing else lost |
| Pdb.ReadSerial | src/formats/pdb.rs:112 | a serial number takes exactly five columns |
| Pdb.GuessElement | src/formats/pdb.rs:65-81 | an atom name of two or more characters always yields an element guess |
| Pdb.GuessFromColumns | src/formats/pdb.rs:86-89 | the element columns win when they hold a symbol (`SI`, `I`) |
| Pdb.GuessFromName | src/formats/pdb.rs:92-97 | otherwise the name's first letter is taken, skipping a leading non-letter (`CA`→`C`, `1SA`→`S`, ` N B`→`N`) |
| Pdb.GuessFromBlankColumns | src/formats/pdb.rs:99-100 | element columns holding only blanks count as absent |
| Pdb.ReadAtomRecord | src/formats/pdb.rs:106-140 | an atom record consumes input when it parses |
| Pdb.Pairs | src/formats/pdb.rs:215-220 | a `CONECT` line stands for its host paired with each listed atom, in order |
| Pdb.ReadBondRecord | src/formats/pdb.rs:203-224 | a `CONECT` record consumes input when it parses |
| Pdb.Jump | src/formats/pdb.rs:292-297 | skipping stops only at a line starting with `CRYST1`, `ATOM  ` or `HETATM` |
| Pdb.SingleBonds | src/formats/pdb.rs:322-325 | every pair read from `CONECT` lines becomes a single bond between the same atoms |
| Pdb.ReadMolecule | src/formats/pdb.rs:299-330 | the structure reads iff a cell or atom line is found; its title is fixed and every bond is single |
| Pdb.ParseMolecule | src/formats/pdb.rs:450-453 | parsing succeeds iff the text has a cell or atom line |
| Pdb.Neighbours | src/formats/pdb.rs:232-235 | an atom's neighbour list holds at most one entry per bond |
| Pdb.Conects | src/formats/pdb.rs:236-244 | at most one `CONECT` line per atom, in atom order, each for an atom hosting some bond and listing its neighbours |
| Pdb.CrystRows | src/formats/pdb.rs:410-414 | a `CRYST1` line is written iff the molecule has a lattice |
| Pdb.FormatBonds | src/formats/pdb.rs:226-247 | the map-and-loop writer produces exactly the `CONECT` lines of `Conects` |
| Pdb.FormatMolecule | src/formats/pdb.rs:402-428 | the writer produces `PdbText`: remark, optional cell line, atom lines, `CONECT` lines, `END` |
| Pdb.AtomRowReads | src/formats/pdb.rs:106-158 | an atom line written by `format_atom` reads back as its serial number, the standard form of its symbol, and its position |
| Pdb.ConectRowReads | src/formats/pdb.rs:203-224 | a written `CONECT` line reads back as its host paired with each listed atom |
| Pdb.Cryst1RowReads | src/formats/pdb.rs:17-43 | a written `CRYST1` line reads back as the cell built from the written parameters |
| Pdb.AtomRowsRead | src/formats/pdb.rs:186-189 | `many0(read_atom_record)` over written atom lines gives back every atom from the `m`-th on |
| Pdb.ConectRowsRead | src/formats/pdb.rs:264-270 | `many1(read_bond_record)` over written `CONECT` lines gives back all their pairs, flattened |
| Pdb.PdbTextReads | src/formats/pdb.rs:299-428 | a written molecule whose fields fit their columns reads back with its serial numbers, standard symbols, positions, cell and `CONECT` pairs |
| Pdb.ConectPairsComplete | src/formats/pdb.rs:226-247 | the `CONECT` lines hold exactly the pairs of the bonds hosted by an atom of the molecule, each once (as multisets) |
| Pdb.PdbBondsRead | src/formats/pdb.rs:226-330 | when each bond starts at an atom of the molecule, the bonds read back are the written bonds, each once, all single |
| Pdb.EmptyNotRead | src/formats/pdb.rs:292-428 | a molecule with neither atoms nor a cell is written as remark and `END` only, which does not read back |
| Pdb.PdbRecords | src/formats/pdb.rs:458-463 | cutting a multi-model file at `ENDMDL` lines loses no line, and every model but the last ends at its only `ENDMDL` |
| Gaussian.Link0Cmd | src/formats/gaussian_input.rs:85-88 | a Link 0 command consumes input when it parses |
| Gaussian.Link0CmdOf | src/formats/gaussian_input.rs:85-88 | `%` and a command up to the line end read back as the command |
| Gaussian.Link0SectionOf | src/formats/gaussian_input.rs:99-101 | Link 0 commands one per line read back in order; the section ends at the first line not starting with `%` |
| Gaussian.Link0MemExample | src/formats/gaussian_input.rs:92-93 | `%Mem=64MB` is the command `Mem=64MB` |
| Gaussian.Link0SaveExample | src/formats/gaussian_input.rs:95-96 | `%save` is the command `save` |
| Gaussian.Link0SectionExample | src/formats/gaussian_input.rs:104-113 | three Link 0 commands are read before the route line |
| Gaussian.BlankLine | src/formats/gaussian_input.rs:117-119 | a blank line consumes input when it parses |
| Gaussian.LinesTillBlank | src/formats/gaussian_input.rs:124 | the lines up to a blank line, which is consumed, consume input |
| Gaussian.RouteSection | src/formats/gaussian_input.rs:121-133 | the route section consumes input when it parses |
| Gaussian.TitleSection | src/formats/gaussian_input.rs:151-160 | the title section consumes input when it parses |
| Gaussian.MoleculeMeta | src/formats/gaussian_input.rs:414-423 | the Link 0, route and title sections together consume input when they parse |
| Gaussian.ChargeAndSpin | src/formats/gaussian_input.rs:166-169 | a charge and spin line gives at least one integer and consumes input |
| Gaussian.ChargeAndSpinOf | src/formats/gaussian_input.rs:166-169 | integers separated by blanks, with blanks before and after, read back in order up to the line end |
| Gaussian.ChargeAndSpinTab | src/formats/gaussian_input.rs:172-181 | `0\t1` reads as charge 0 and multiplicity 1 |
| Gaussian.ChargeAndSpinSix | src/formats/gaussian_input.rs:172-181 | six integers after mixed blanks read back in order, `-3` included |
| Gaussian.ChargeAndSpinComma | src/formats/gaussian_input.rs:480 | with commas read as blanks, `0,1` gives charge 0 and multiplicity 1 |
| Gaussian.OniomOf | src/formats/gaussian_input.rs:254-268 | the words fill layer, link atom and link host in that order: no link atom without a layer, no host without a link atom |
| Gaussian.FromStr | src/formats/gaussian_input.rs:254-268 | the word-by-word assignment computes `OniomOf` |
| Gaussian.OniomRoundTrip | src/formats/gaussian_input.rs:238-268 | ONIOM information that `Display` writes in full reads back as itself |
| Gaussian.OniomHostLost | src/formats/gaussian_input.rs:240-248 | a link atom or host without the fields before it is not written, so it does not come back |
| Gaussian.AtomOniom | src/formats/gaussian_input.rs:273-279 | the ONIOM part of an atom line always parses, on the rest of the line |
| Gaussian.OniomFullExample | src/formats/gaussian_input.rs:283-286 | ` L H-Ha-0.1 3` gives layer `L`, link atom `H-Ha-0.1` and host 3 |
| Gaussian.OniomLayerExample | src/formats/gaussian_input.rs:288-289 | ` L` gives the layer `L` alone |
| Gaussian.MmInfo | src/formats/gaussian_input.rs:211-215 | MM information consumes input when it parses |
| Gaussian.MmInfoWithCharge | src/formats/gaussian_input.rs:210-221 | `-CA--0.25` is MM type `CA` with MM charge -0.25 |
| Gaussian.MmInfoWithoutCharge | src/formats/gaussian_input.rs:222-225 | `-CA` is MM type `CA` with no charge |
| Gaussian.AtomParam | src/formats/gaussian_input.rs:185-187 | a `key=value` parameter consumes input when it parses |
| Gaussian.AtomParamExample | src/formats/gaussian_input.rs:190-194 | `fragment=1 ` is the parameter `fragment` with value `1`, the blank left over |
| Gaussian.AtomParams | src/formats/gaussian_input.rs:198-201 | a parameter list holds at least one parameter and consumes input |
| Gaussian.AtomParamsOf | src/formats/gaussian_input.rs:198-201 | parameters written as `(key=value,...)` read back in order |
| Gaussian.ParamMap | src/formats/gaussian_input.rs:322 | the collected map has exactly the keys listed, a later key overriding an earlier one |
| Gaussian.FrozenCode | src/formats/gaussian_input.rs:297-299 | a frozen code consumes input when it parses |
| Gaussian.AtomLine | src/formats/gaussian_input.rs:302-328 | an atom line consumes input when it parses |
| Gaussian.AtomLines | src/formats/gaussian_input.rs:426 | `many1(atom_line)` gives at least one atom line |
| Gaussian.BondItem | src/formats/gaussian_input.rs:378-385 | a bond item consumes input when it parses |
| Gaussian.HostBonds | src/formats/gaussian_input.rs:394-399 | a connectivity line gives a single bond from its host to each listed atom, the orders dropped |
| Gaussian.ConnectLine | src/formats/gaussian_input.rs:387-402 | a connectivity line consumes input when it parses |
| Gaussian.ConnectSection | src/formats/gaussian_input.rs:427 | the optional connectivity section always parses, giving no bonds when there is no line |
| Gaussian.ConnectExample | src/formats/gaussian_input.rs:405-408 | ` 1 2 1.0 3 1.0 4 1.0 5 1.0` gives four single bonds from atom 1 |
| Gaussian.AtomFrom | src/formats/gaussian_input.rs:445-453 | an atom has the standard form of the line's label, the line's position and record, and is frozen on all axes iff its frozen code is -1, otherwise free |
| Gaussian.LatticeOf | src/formats/gaussian_input.rs:457-462 | a lattice is set iff there are exactly three `TV` vectors |
| Gaussian.TvSplit | src/formats/gaussian_input.rs:437-455 | every atom line is either a translation vector or an atom, and no atom comes from a `TV` line |
| Gaussian.SpecMoleculeShape | src/formats/gaussian_input.rs:434-470 | atoms numbered from 1, one per non-`TV` line, none a `TV` atom, and a lattice iff there are three `TV` lines |
| Gaussian.SpecStep | src/formats/gaussian_input.rs:437-455 | one more line adds a vector if it is `TV` and an atom otherwise |
| Gaussian.BuildMolecule | src/formats/gaussian_input.rs:434-470 | the loop assembling atoms, vectors and bonds computes `SpecMolecule` |
| Gaussian.ParseMolecule | src/formats/gaussian_input.rs:476-486 | parsing succeeds iff the meta sections parse and the specification, commas read as blanks, parses; the title is the title section |
| Gaussian.AtomRows | src/formats/gaussian_input.rs:574-577 | one atom line per site, in storage order |
| Gaussian.TvRows | src/formats/gaussian_input.rs:580-587 | three `TV` lines for a periodic molecule, none otherwise |
| Gaussian.Neighbours | src/formats/gaussian_input.rs:592-595 | an atom's neighbour list holds at most one entry per bond |
| Gaussian.ConnectRows | src/formats/gaussian_input.rs:596-604 | one connectivity line for every atom, in atom order, with its neighbours |
| Gaussian.FormatConnect | src/formats/gaussian_input.rs:597-603 | the per-atom loop writes that atom's connectivity line |
| Gaussian.FormatTv | src/formats/gaussian_input.rs:584-586 | the vector loop writes the three `TV` lines |
| Gaussian.FormatAtoms | src/formats/gaussian_input.rs:574-577 | the atom loop writes the atom lines |
| Gaussian.FormatConnectivity | src/formats/gaussian_input.rs:591-604 | the map-and-loop writer produces exactly `ConnectRows` |
| Gaussian.FormatMolecule | src/formats/gaussian_input.rs:560-608 | the writer produces `GaussianText`: fixed head, atoms, `TV` lines, blank line, connectivity, blank line |
| Gaussian.AtomRowReads | src/formats/gaussian_input.rs:544-557 | an atom line written by `format_atom` reads back as its symbol, frozen code, position and ONIOM information |
| Gaussian.FrozenRoundTrip | src/formats/gaussian_input.rs:446-449 | an atom read back is frozen on all axes exactly when the atom written was |
| Gaussian.TvRowReads | src/formats/gaussian_input.rs:585 | a written `TV` line reads back as a translation vector |
| Gaussian.ConnectLineOf | src/formats/gaussian_input.rs:387-402 | a written connectivity line reads back as single bonds from its host to each listed atom |
| Gaussian.Link1AnyCase | src/formats/gaussian_input.rs:642-645 | the `--Link1--` separator line is recognised in any case, line break included |
| Gaussian.GaussianRecords | src/formats/gaussian_input.rs:640-648 | cutting a multi-job input loses no line, and every job but the last ends at its only `--Link1--` line |
| GaussianFchk.Width | src/formats/gaussian_fchk.rs:19-34 | one item takes a single column only for logicals, and a multiple of four columns for every other type |
| GaussianFchk.LineFits | src/formats/gaussian_fchk.rs:23-32 | the Fortran layouts 6I12, 5E16.8, 72L1, 5A12 and 9A8 each fill at most 80 columns |
| GaussianFchk.ParseDataType | src/formats/gaussian_fchk.rs:40-52 | parsing succeeds iff the trimmed text is `I`, `R`, `C` or `H` (never `L`), and fails with `unkown data type: ` and that text otherwise |
| GaussianFchk.CodeRoundTrip | src/formats/gaussian_fchk.rs:40-52 | a type code with blanks around it parses back to its type |
| GaussianFchk.LogicalRejected | src/formats/gaussian_fchk.rs:42-49 | the logical type has a width but its code `L` is rejected |
| GaussianFchk.DataTypeExamples | src/formats/gaussian_fchk.rs:56-66 | `  I` is an integer 12 columns wide and ` R ` a real 16 columns wide |
| GaussianFchk.ReadSectionHeader | src/formats/gaussian_fchk.rs:88-108 | a line shorter than 49 columns does not parse; otherwise the type is the trimmed columns 40..47, and an unknown type is the `expect("dt")` failure |
| GaussianFchk.HeaderRoundTrip | src/formats/gaussian_fchk.rs:88-108 | a header laid out in the 40/7/2 fixed columns reads back as its name, type, array marker and value, leaving the following lines |
| GaussianFchk.NuclearChargesHeader | src/formats/gaussian_fchk.rs:112-117 | the first header example is an array of 11 reals named `Nuclear charges` |
| GaussianFchk.AlphaElectronsHeader | src/formats/gaussian_fchk.rs:119-121 | the second header example is a single integer 225, not an array |
| GaussianFchk.TotalEnergyHeader | src/formats/gaussian_fchk.rs:123-125 | the third header example is a single real, not an array |
| Sdf.CountsLine | src/formats/sdf.rs:25-34 | the counts line consumes input when it parses |
| Sdf.CountsLineOf | src/formats/sdf.rs:25-34 | counts below 1000, right-aligned in 3 columns each, read back whatever the rest of the line holds |
| Sdf.CountsExample | src/formats/sdf.rs:37-42 | ` 16 14  0 ... V2000` reads as 16 atoms and 14 bonds |
| Sdf.AtomLine | src/formats/sdf.rs:51-65 | an atom line consumes input and gives `Atom::new` of its trimmed symbol field (standardised) and its position |
| Sdf.FormatAtom | src/formats/sdf.rs:68-78 | the written line starts with the 34 coordinate and symbol columns of the atom |
| Sdf.AtomLineReads | src/formats/sdf.rs:51-65 | a line whose first 34 columns hold a fitting atom gives back the standard form of its symbol and its position, whatever follows |
| Sdf.FormatAtomReads | src/formats/sdf.rs:51-78 | a line written by `format_atom` reads back as the standard form of the atom's symbol and its position |
| Sdf.AtomPrefixKept | src/formats/sdf.rs:80-86 | reformatting a parsed atom line whose symbol is standard reproduces its first 60 columns |
| Sdf.AtomExample | src/formats/sdf.rs:81-86 | the unit-test line reads as a carbon atom (when `C` is standard), and writing it again as atom 12 reproduces its first 60 columns |
| Sdf.BondKindOf | src/formats/sdf.rs:110-119 | codes 2, 3 and 4 are double, triple and aromatic; every other code is single |
| Sdf.BondCodeRoundTrip | src/formats/sdf.rs:110-119 | the codes 1 to 4 and the four kinds correspond one to one |
| Sdf.BondLine | src/formats/sdf.rs:102-123 | a bond line consumes input when it parses |
| Sdf.FormatBondReads | src/formats/sdf.rs:102-133 | a written bond line reads back as a single bond between the same atoms, whatever kind was written |
| Sdf.BondPrefixKept | src/formats/sdf.rs:135-141 | reformatting a parsed bond line with code 1 reproduces its first 9 columns |
| Sdf.BondExample | src/formats/sdf.rs:136-141 | `  6  7  1  0  0  0 ` reads as a single bond from atom 6 to atom 7 and is written back with the same first 9 columns |
| Car.ReadPbcParams | src/formats/car.rs:7-25 | a `PBC` line parses only after the `PBC` tag, and consumes input |
| Car.PbcFrom | src/formats/car.rs:10-15 | of the first six tokens only the numbers are kept, and fewer than six numbers is a parse error |
| Car.PbcLineReads | src/formats/car.rs:7-25 | a `PBC` line is accepted iff its first six tokens are numbers, and then gives them in order, whatever follows (the space group included) |
| Car.PbcNumbersRead | src/formats/car.rs:7-25 | a line whose first six tokens are numbers reads as the cell of those six numbers |
| Car.PbcExample1 | src/formats/car.rs:31-34 | the first `PBC` example reads as its six numbers |
| Car.PbcExample2 | src/formats/car.rs:35-38 | the second `PBC` example reads as its six numbers, the space group `(P1)` ignored |
| Car.ReadAtomLine | src/formats/car.rs:45-51 | an atom line consumes input and gives `Atom::new` of the letters that start its name, standardised |
| Car.AtomLineReads | src/formats/car.rs:45-51 | a name made of an element symbol and a suffix not starting with a letter gives the standard form of that symbol and the position |
| Car.AtomNameExample | src/formats/car.rs:47-48 | the element symbol of the atom name `Si23` is `Si` |
| ExtXyz.ReadLattice | src/formats/extxyz.rs:24-40 | the slice `line[9..]` fails exactly for the line `Lattice=` alone; a cell is found only after the key and a closing `"` |
| ExtXyz.NoKeyNoLattice | src/formats/extxyz.rs:25 | a line that does not start with `Lattice=` carries no cell |
| ExtXyz.JoinedNumbers | src/formats/extxyz.rs:26-28 | numbers joined by single blanks end at the closing quote and split back into themselves |
| ExtXyz.LatticeReads | src/formats/extxyz.rs:24-40 | numbers written between the quotes give a cell iff there are nine of them, and then the cell with those vectors in order |
| ExtXyz.LatticeExample | src/formats/extxyz.rs:44-49 | the ASE title line gives the orthorhombic cell with diagonal 13.5142, 14.9833 and 20.0 |
| Template.Symbols | src/template.rs:128-129 | the element symbols of the atoms, in storage order |
| Template.FirstSeen | src/template.rs:127-132 | the `IndexMap` keys: each symbol of the molecule exactly once, no others |
| Template.KeyIndex | src/template.rs:143-146 | `get_full` finds the first and only place of a key |
| Template.ElementTypes | src/template.rs:127-132 | one pair per distinct symbol in first-seen order, with the number of atoms of that symbol |
| Template.CountElementTypes | src/template.rs:127-132 | the counting loop yields `ElementTypes`, and every atom's symbol is one of its keys |
| Template.AtomRecords | src/template.rs:135-166 | one record per atom, in order, with its index, symbol, number, position, fractional position (zeros without a cell), velocity, freezing and 1-based element index |
| Template.Renderable | src/template.rs:103-200 | title, atom and bond counts (a bond counted once per entry of the bond list), the cell of a periodic molecule, the element types, one species per type numbered from 1, the atom records, and an empty bond list |
| Template.TypesAddSeen | src/template.rs:130-131 | counting an atom of a known symbol raises that type's count by one and leaves the rest |
| Template.TypesAddNew | src/template.rs:130-131 | an atom of a new symbol appends that type with count 1 |
| Template.CountsSum | src/template.rs:127-132 | the element counts add up to the number of atoms |
| Template.SpeciesCount | src/template.rs:171-182 | there is one species per distinct symbol |
| Template.FirstSeenPrefix | src/template.rs:127-132 | the element types of the first atoms come first, in the same order |
| Template.NewSymbolIndex | src/template.rs:143-146 | an atom whose symbol has not occurred before it gets the next element index |
| Template.FirstAtomIndex | src/template.rs:143-146 | the first atom always has element index 1 |
| Template.ElementTypesExample | src/template.rs:95-98 | `O H H H` gives the types `O` with 1 atom and `H` with 3, in that order |
| Partition.LinesOf | src/formats/pdb.rs:466-467 | the text is cut into lines, none of them empty |
| Partition.FirstMatch | src/formats/cif.rs:397 | `seek_line` stops at the first line the test accepts, or at the end |
| Partition.TerminatedParts | src/formats/pdb.rs:461 | no record cut from a stream is empty |
| Partition.TerminatedPartsFlatten | src/formats/pdb.rs:458-463 | cutting a stream at terminator lines loses and adds no line |
| Partition.TerminatedPartsRecords | src/formats/gaussian_input.rs:640-648 | every record holds at most one terminator, as its last line, and every record but the last is closed by one |
| Partition.PrecededPartsSound | src/formats/cif.rs:404-408 | every start line opens exactly one record, each record holds one start line, and only the lines before the first start are dropped |
| Chem.NumberFrom | src/formats/gaussian_input.rs:456 | `(1..).zip(atoms)` pairs each atom with its serial number from 1, in order |
| Chem.PutSite | src/formats/vasp_input.rs:193 | `add_atom` either replaces one atom or adds one |
| Chem.PutSiteNumbered | src/formats/vasp_input.rs:193 | on atoms numbered 1..m, serial `n` replaces atom `n` when `n <= m` and is appended when `n == m + 1`, the numbering kept |
| Chem.PutSitesFrom | src/formats/vasp_input.rs:180-194 | adding atoms under consecutive serial numbers keeps the atoms numbered from 1 |
| Chem.PutSitesAtoms | src/formats/vasp_input.rs:180-194 | each new atom takes its own place and the other atoms stay |
| Chem.AddNumbered | src/formats/cif.rs:254-255 | adding atoms numbered from 1 replaces the first atoms, keeps any further old ones, and keeps the numbering |
| Chem.SetScaledPositions | src/formats/cif.rs:386-387 | succeeds iff there is a lattice, and then turns every fractional position into the Cartesian one, changing nothing else |
| Paths.LastIndex | src/formats/vasp_input.rs:382 | the index found holds the character and no later one does |
| Paths.StripTail | src/formats/vasp_input.rs:388 | what `Path` drops before taking the last component: only trailing `/` and `.` characters go, and what remains is empty or ends in a component that is neither `.` nor followed by a separator |
| Paths.FileName | src/formats/vasp_input.rs:388 | like `Path::file_name`: trailing `/` and `/.` are ignored, and the name is a non-empty last component other than `.` and `..`, without separator, that ends what remains of the path |
| Paths.Extension | src/formats/vasp_input.rs:382 | the extension holds no dot and no separator, and the path, its trailing `/` and `/.` ignored, ends with a dot and it |
| Paths.FileNameOf | src/formats/vasp_input.rs:388 | the file name of `dir/name` is `name` |
| Paths.ExtensionOf | src/formats/vasp_input.rs:382 | a file `stem.ext` in any directory has the extension `ext` |
| Paths.NoExtension | src/formats/vasp_input.rs:385-388 | a file name without a dot has no extension, so the name test applies |
| Paths.TrailingIgnored | src/formats/vasp_input.rs:382-388 | appending `/` or `/.` to a path changes neither its file name nor its extension |
| Paths.DotsNameless | src/formats/vasp_input.rs:388 | the paths `.` and `..` have no file name |
| Vasp.TrailingIgnoredParsable | src/formats/vasp_input.rs:380-398 | appending `/` or `/.` to a path does not change whether the POSCAR backend claims it |
| Vasp.PoscarDirectory | src/formats/vasp_input.rs:388-393 | a path `dir/POSCAR/` is claimed, as `Path` reads its last component `POSCAR` |
| Numerals.ShowNatValue | src/formats/mol2.rs:345 | an integer printed with `{}` reads back as itself |
| Numerals.ShowNatWidth | src/formats/pdb.rs:403-405 | an integer below 10^k takes at most k digits |
| Numerals.FloatLenExtend | src/formats/cif.rs:23 | `recognize_float` stops at a character that cannot continue a number, whatever follows |
| Numerals.Floats | src/formats/extxyz.rs:28 | the words kept are the numbers among them, in order; all are kept iff all are numbers |
| Nom.ReadLine | src/formats/mol2.rs:185 | `read_line` always succeeds, and consumes something on non-empty input |
| Nom.TakeS | src/formats/pdb.rs:108-110 | `take_s(n)` succeeds iff `n` characters are left, and takes exactly those |
| Nom.DoubleBefore | src/formats/mol2.rs:19 | a number is read up to the first character that cannot continue it |
| Nom.XyzArrayOf | src/formats/mol2.rs:19 | three numbers with blanks between them read back as a position |
| Nom.TakeFloatOf | src/formats/pdb.rs:111 | a number right-aligned in a fixed-width field reads back |
| Nom.TakeNatOf | src/formats/pdb.rs:112 | a count right-aligned in a fixed-width field reads back |
| Nom.Tokens | src/formats/car.rs:10 | a token list holds at least one token and consumes input |
| Nom.TokensOf | src/formats/car.rs:10 | blank-separated tokens read back, the text after them left unread |
| Text.Span | src/formats/car.rs:48 | the longest prefix whose characters pass the test |
| Text.Words | src/formats/gaussian_input.rs:256 | the words are non-empty runs of visible characters |
| Text.WordsJoin | src/formats/extxyz.rs:28 | words joined by single blanks split back into themselves |
| Text.SplitOn | src/formats/cif.rs:244 | `split` always yields at least one part |
| Text.AlphaPrefixOf | src/formats/car.rs:48 | the ASCII letters before the first non-letter form the element symbol |
| Text.JoinLines | src/formats/xyz.rs:176-205 | appending each row and a line break writes the rows in order, each terminated |

## Left out

- Floating-point values: numbers stay as text. Nothing rounds a value to a precision such as `{:10.4}` or `{:-12.5}`: a writer copies a number's text into its padded field. So the read-back lemmas hold for numerals that already fit their field. Spellings such as `inf` and `NaN` are not numerals here.
- Lattice arithmetic (`from_params`, `to_cart`, `to_frac`, `lengths`, `angles`, `set_scaled_positions`), element recognition, bond-order display and atomic numbers: these come from the `Core` parameter. Nothing is proved about their values.
- Error message texts of nom and of the readers: an error is only `Err` or `NoParse`.
- Panics (`expect`, `unwrap`, out-of-range slicing): each is an `Err` result. An example is `line[9..]` in `ExtxyzFile::read_lattice` for the line `Lattice=` followed by a multi-byte character; UTF-8 character boundaries are not modelled.
- Logging (`warn!`, `error!`, `eprintln!`), for example count mismatches, a CIF row of the wrong width, a CAR space group other than `(P1)`, or PDB serial numbers above 9999: these only warn, so the model does nothing there.
- White space: Rust's `split_ascii_whitespace` also splits at form feed, and `trim` / `split_whitespace` strip every Unicode white-space character. The model's white space is space, tab, CR and LF.
- `to_lowercase` / `to_uppercase` are ASCII-only in the model; Unicode case mapping is not modelled.
- Gaussian `format_molecule` collects neighbour lists in a `HashMap`. The model lists them in bond order and writes the rows in atom order.
- Chem.Molecule: bonds are a list, and a bond given twice, or once from each end, is kept twice. gchemol_core stores bonds in a graph that merges a repeated or reversed pair into one edge; that graph is foreign code. So Pdb.SingleBonds and Pdb.ReadMolecule keep a `CONECT` bond listed from both of its atoms twice, and Template.Renderable counts it twice.
- Chem.NewAtom: `standardSymbol` is a parameter, so the model does not say which symbols are standard or what `Atom::new` turns a non-standard one into.
- Gaussian.TvRowReads: holds only for cell vectors that `TvWritable` admits. The first value must not be an integer, and the second and third must be narrower than their 14-character fields, because otherwise the written `TV` line does not separate its fields.
- Xyz.ReadAtomXyz: its own contract states only that it consumes input. What it reads from a written row is stated by `XyzRoundTrip.AtomRowReads`.
- GaussianFchk: `read_data_array` and the rest of the fchk reader beyond `DataType` and `read_section_header` are not part of this model. The `expect` on an unknown type code is the `BadType` error.
- Sdf: the `ChemicalFile` implementation for SDF is not part of this model. The registry uses the extensions `.sd`, `.sdf` and `.mol` with tag `text/sdf`, and the SDF parser and formatter are parameters. Three-character element symbols are read as the trimmed 3-character field and nothing more.
- Sdf.FormatBondReads: `format_bond` always writes order 1, so only the first 9 characters and single bonds read back.
- Template: only the `renderable` projection is modelled. The handlebars, tera and jinja engines and their number-formatting helpers are not part of this model.
- `src/io.rs` (file reading and writing, directory walking), `TextReader` and its I/O errors, partial writes, and `describe_backends` (printing): I/O, left out.
- The `cjson`, `cml` and `xsd` formats: these are driven by the JSON and XML libraries rather than a line grammar, and are not part of this model.
