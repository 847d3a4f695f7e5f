/**
  Re-materialisation of an operator in another block: `_create_var`,
  `_create_param`, `_create_inter` and `_create_program`. The destination
  block is a block of a program updated in place; the source block is read
  from a snapshot of the source program's blocks.
 */
module Remat {
  import opened Ir

  /**
    The declaration `_create_var` gives the destination for a source
    declaration: a kind-only declaration for the opaque kinds, a parameter
    (which Paddle always makes persistable) for a parameter, and a copy of
    the intermediate otherwise.
   */
  function CopiedDecl(src: VarDesc): (r: VarDesc)
    ensures r.vtype == src.vtype
    ensures IsNotShapeType(src.vtype) ==> r.meta.None? && !r.isParameter && r.persistable == src.persistable
    ensures !IsNotShapeType(src.vtype) ==> r.meta == src.meta && r.isParameter == src.isParameter
    ensures !IsNotShapeType(src.vtype) && !src.isParameter ==> r == src
    ensures r.isParameter ==> r.persistable
  {
    if IsNotShapeType(src.vtype) then VarDesc(src.vtype, src.persistable, false, None)
    else if src.isParameter then VarDesc(src.vtype, true, true, src.meta)
    else VarDesc(src.vtype, src.persistable, false, src.meta)
  }

  /** Copying a copied declaration changes nothing. */
  lemma CopiedDeclIdempotent(src: VarDesc)
    ensures CopiedDecl(CopiedDecl(src)) == CopiedDecl(src)
  {
  }

  /**
    The source declaration `_create_var` reads: `src_block.var(name)` (the
    block itself) or, with `force_create`, `src_block._var_recursive(name)`
    (the block and its ancestors).
   */
  function SourceVar(srcBlocks: seq<Block>, s: nat, name: string, forceCreate: bool): (r: Option<VarDesc>)
    requires Arena(srcBlocks) && s < |srcBlocks|
    ensures name in srcBlocks[s].vars ==> r == Some(srcBlocks[s].vars[name])
    ensures !forceCreate && name !in srcBlocks[s].vars ==> r.None?
  {
    if forceCreate then FindVar(srcBlocks, s, name)
    else if name in srcBlocks[s].vars then Some(srcBlocks[s].vars[name]) else None
  }

  /** The condition `_create_program` tests before declaring a name is exactly that the lookup succeeds. */
  lemma ReferenceCondition(srcBlocks: seq<Block>, s: nat, name: string, forceCreate: bool)
    requires Arena(srcBlocks) && s < |srcBlocks|
    ensures (name in srcBlocks[s].vars || (forceCreate && FindVar(srcBlocks, s, name).Some?)) <==>
      SourceVar(srcBlocks, s, name, forceCreate).Some?
  {
  }

  /** The declarations after redeclaring each resolvable name of `names` in turn; a name already in `vars` gets the new copy. */
  function Declared(vars: map<string, VarDesc>, srcBlocks: seq<Block>, s: nat, names: seq<string>, forceCreate: bool)
    : map<string, VarDesc>
    requires Arena(srcBlocks) && s < |srcBlocks|
    decreases |names|
  {
    if names == [] then vars
    else
      var before := Declared(vars, srcBlocks, s, names[..|names| - 1], forceCreate);
      var name := names[|names| - 1];
      match SourceVar(srcBlocks, s, name, forceCreate)
      case None => before
      case Some(v) => before[name := CopiedDecl(v)]
  }

  /**
    After re-materialisation a name is declared iff it was declared before or
    it is referenced and resolves in the source; a referenced, resolvable name
    holds the copy of its source declaration, any other keeps its old one.
   */
  lemma {:induction false} DeclaredMember(vars: map<string, VarDesc>, srcBlocks: seq<Block>, s: nat, names: seq<string>,
                                          forceCreate: bool, x: string)
    requires Arena(srcBlocks) && s < |srcBlocks|
    ensures var r := Declared(vars, srcBlocks, s, names, forceCreate);
      (x in r <==> x in vars || (x in names && SourceVar(srcBlocks, s, x, forceCreate).Some?)) &&
      (x in names && SourceVar(srcBlocks, s, x, forceCreate).Some? ==>
        r[x] == CopiedDecl(SourceVar(srcBlocks, s, x, forceCreate).value)) &&
      (!(x in names && SourceVar(srcBlocks, s, x, forceCreate).Some?) && x in vars ==> r[x] == vars[x])
    decreases |names|
  {
    if names != [] {
      var prefix := names[..|names| - 1];
      DeclaredMember(vars, srcBlocks, s, prefix, forceCreate, x);
      assert names == prefix + [names[|names| - 1]];
    }
  }

  /** Re-materialising the same names twice declares nothing new the second time. */
  lemma DeclaredIdempotent(vars: map<string, VarDesc>, srcBlocks: seq<Block>, s: nat, names: seq<string>, forceCreate: bool)
    requires Arena(srcBlocks) && s < |srcBlocks|
    ensures Declared(Declared(vars, srcBlocks, s, names, forceCreate), srcBlocks, s, names, forceCreate) ==
      Declared(vars, srcBlocks, s, names, forceCreate)
  {
    var once := Declared(vars, srcBlocks, s, names, forceCreate);
    var twice := Declared(once, srcBlocks, s, names, forceCreate);
    forall x ensures (x in twice <==> x in once) && (x in once ==> twice[x] == once[x]) {
      DeclaredMember(vars, srcBlocks, s, names, forceCreate, x);
      DeclaredMember(once, srcBlocks, s, names, forceCreate, x);
    }
  }

  /** The destination block `d` with `vars` as its declarations. */
  function WithVars(blocks: seq<Block>, d: nat, vars: map<string, VarDesc>): (r: seq<Block>)
    requires d < |blocks|
    ensures |r| == |blocks| && r[d].ops == blocks[d].ops && r[d].vars == vars
    ensures r[d].parent == blocks[d].parent && r[d].forwardBlock == blocks[d].forwardBlock
    ensures forall c :: 0 <= c < |blocks| && c != d ==> r[c] == blocks[c]
  {
    blocks[d := blocks[d].(vars := vars)]
  }

  /** `_create_var(src_block, dst_block, name, force_create)`. */
  method CreateVar(srcBlocks: seq<Block>, s: nat, dst: Program, d: nat, srcVarname: string, forceCreate: bool)
    returns (err: Option<Error>)
    requires Arena(srcBlocks) && s < |srcBlocks| && dst.Valid() && d < |dst.blocks|
    modifies dst
    ensures dst.Valid()
    ensures SourceVar(srcBlocks, s, srcVarname, forceCreate).None? ==>
      err == Some(ValueError(srcVarname)) && dst.blocks == old(dst.blocks)
    ensures SourceVar(srcBlocks, s, srcVarname, forceCreate).Some? ==> (err.None? &&
      dst.blocks == WithVars(old(dst.blocks), d,
        old(dst.blocks)[d].vars[srcVarname := CopiedDecl(SourceVar(srcBlocks, s, srcVarname, forceCreate).value)]))
  {
    var srcVar: VarDesc;
    if !forceCreate {
      if srcVarname !in srcBlocks[s].vars {
        return Some(ValueError(srcVarname));
      }
      srcVar := srcBlocks[s].vars[srcVarname];
    } else {
      var found := FindVar(srcBlocks, s, srcVarname);
      if found.None? {
        return Some(ValueError(srcVarname));
      }
      srcVar := found.value;
    }
    var decl: VarDesc;
    if IsNotShapeType(srcVar.vtype) {
      decl := VarDesc(srcVar.vtype, srcVar.persistable, false, None);
    } else if srcVar.isParameter {
      decl := VarDesc(srcVar.vtype, true, true, srcVar.meta);   // _create_param
    } else {
      decl := VarDesc(srcVar.vtype, srcVar.persistable, false, srcVar.meta);   // _create_inter
    }
    dst.blocks := WithVars(dst.blocks, d, dst.blocks[d].vars[srcVarname := decl]);
    return None;
  }

  /** Declare every name of `names` that resolves in the source, in order. */
  method CreateVars(srcBlocks: seq<Block>, s: nat, dst: Program, d: nat, names: seq<string>, forceCreate: bool)
    requires Arena(srcBlocks) && s < |srcBlocks| && dst.Valid() && d < |dst.blocks|
    modifies dst
    ensures dst.Valid()
    ensures dst.blocks == WithVars(old(dst.blocks), d, Declared(old(dst.blocks)[d].vars, srcBlocks, s, names, forceCreate))
  {
    ghost var blocks0 := dst.blocks;
    for i := 0 to |names|
      invariant dst.Valid()
      invariant dst.blocks == WithVars(blocks0, d, Declared(blocks0[d].vars, srcBlocks, s, names[..i], forceCreate))
    {
      var name := names[i];
      assert names[..i + 1][..i] == names[..i];
      if name in srcBlocks[s].vars || (forceCreate && FindVar(srcBlocks, s, name).Some?) {
        var err := CreateVar(srcBlocks, s, dst, d, name, forceCreate);
      }
    }
    assert names[..|names|] == names;
  }

  /** What `_create_program` leaves in the destination block. */
  function Rematerialized(blocks: seq<Block>, d: nat, srcBlocks: seq<Block>, s: nat, srcOp: Op, forceCreate: bool)
    : seq<Block>
    requires d < |blocks| && Arena(srcBlocks) && s < |srcBlocks|
  {
    var names := InputArgNames(srcOp) + OutputArgNames(srcOp);
    blocks[d := blocks[d].(ops := blocks[d].ops + [srcOp],
                           vars := Declared(blocks[d].vars, srcBlocks, s, names, forceCreate))]
  }

  lemma {:induction false} DeclaredAppend(vars: map<string, VarDesc>, srcBlocks: seq<Block>, s: nat, a: seq<string>, b: seq<string>,
                       forceCreate: bool)
    requires Arena(srcBlocks) && s < |srcBlocks|
    ensures Declared(Declared(vars, srcBlocks, s, a, forceCreate), srcBlocks, s, b, forceCreate) ==
      Declared(vars, srcBlocks, s, a + b, forceCreate)
    decreases |b|
  {
    if b != [] {
      DeclaredAppend(vars, srcBlocks, s, a, b[..|b| - 1], forceCreate);
      assert (a + b)[..|a + b| - 1] == a + b[..|b| - 1];
      assert (a + b)[|a + b| - 1] == b[|b| - 1];
    } else {
      assert a + b == a;
    }
  }

  /** `_create_program(src_block, dst_block, src_op, force_create)`. */
  method CreateProgram(srcBlocks: seq<Block>, s: nat, dst: Program, d: nat, srcOp: Op, forceCreate: bool)
    requires Arena(srcBlocks) && s < |srcBlocks| && dst.Valid() && d < |dst.blocks|
    modifies dst
    ensures dst.Valid()
    ensures dst.blocks == Rematerialized(old(dst.blocks), d, srcBlocks, s, srcOp, forceCreate)
  {
    ghost var blocks0 := dst.blocks;
    dst.blocks := dst.blocks[d := dst.blocks[d].(ops := dst.blocks[d].ops + [srcOp])];
    CreateVars(srcBlocks, s, dst, d, InputArgNames(srcOp), forceCreate);
    CreateVars(srcBlocks, s, dst, d, OutputArgNames(srcOp), forceCreate);
    DeclaredAppend(blocks0[d].vars, srcBlocks, s, InputArgNames(srcOp), OutputArgNames(srcOp), forceCreate);
  }

  /**
    After `_create_program` the destination block ends with the copied
    operator and declares every name the operator references that resolves
    in the source, as the copy of the source declaration.
   */
  lemma RematerializedDeclares(blocks: seq<Block>, d: nat, srcBlocks: seq<Block>, s: nat, srcOp: Op, forceCreate: bool,
                               x: string)
    requires d < |blocks| && Arena(srcBlocks) && s < |srcBlocks|
    requires x in InputArgNames(srcOp) || x in OutputArgNames(srcOp)
    requires SourceVar(srcBlocks, s, x, forceCreate).Some?
    ensures var r := Rematerialized(blocks, d, srcBlocks, s, srcOp, forceCreate);
      r[d].ops[|r[d].ops| - 1] == srcOp && x in r[d].vars &&
      r[d].vars[x] == CopiedDecl(SourceVar(srcBlocks, s, x, forceCreate).value)
  {
    DeclaredMember(blocks[d].vars, srcBlocks, s, InputArgNames(srcOp) + OutputArgNames(srcOp), forceCreate, x);
  }

  /**
    Re-materialising the same operator twice leaves the declarations of doing
    it once, but the block then holds two copies of the operator.
   */
  lemma RematerializedTwice(blocks: seq<Block>, d: nat, srcBlocks: seq<Block>, s: nat, srcOp: Op, forceCreate: bool)
    requires d < |blocks| && Arena(srcBlocks) && s < |srcBlocks|
    ensures var once := Rematerialized(blocks, d, srcBlocks, s, srcOp, forceCreate);
      var twice := Rematerialized(once, d, srcBlocks, s, srcOp, forceCreate);
      twice[d].vars == once[d].vars && twice[d].ops == blocks[d].ops + [srcOp, srcOp]
  {
    DeclaredIdempotent(blocks[d].vars, srcBlocks, s, InputArgNames(srcOp) + OutputArgNames(srcOp), forceCreate);
  }
}
