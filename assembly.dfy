/** The vocabulary shared by the assembler's parser and code writer. The
    mnemonics and register names are closed sets of words (the `keywords` and
    `registers` lists of assembler/tokenizer.py), so they are enumerations
    here; each has its spelling. A parsed instruction is a mnemonic followed
    by its operands: registers, label names or integers. A register or
    mnemonic compares equal to a string exactly when the string is its
    spelling, which is how the source's comparisons are read here. */
module Assembly {
  import opened Wrappers

  datatype Keyword =
    | Lda | Ldb | Ldu | Mov | Jmp | Jlt | Jeq | Jgt | Jle | Jge | Jne | Nop | Jis | Jcs | Opd
    | Opi | Hlt | Not | Neg | Inc | Dec | Sub | And | Or | Add | Ics | Icc | Define

  datatype Register = L | H | M | I | X | Y

  /** The keywords in the order of the tokenizer's list. */
  const Keywords: seq<Keyword> := [
    Lda, Ldb, Ldu, Mov, Jmp, Jlt, Jeq, Jgt, Jle, Jge, Jne, Nop, Jis, Jcs, Opd,
    Opi, Hlt, Not, Neg, Inc, Dec, Sub, And, Or, Add, Ics, Icc, Define]

  const Registers: seq<Register> := [L, H, M, I, X, Y]

  function KeywordText(k: Keyword): string {
    match k
    case Lda => "lda" case Ldb => "ldb" case Ldu => "ldu" case Mov => "mov" case Jmp => "jmp"
    case Jlt => "jlt" case Jeq => "jeq" case Jgt => "jgt" case Jle => "jle" case Jge => "jge"
    case Jne => "jne" case Nop => "nop" case Jis => "jis" case Jcs => "jcs" case Opd => "opd"
    case Opi => "opi" case Hlt => "hlt" case Not => "not" case Neg => "neg" case Inc => "inc"
    case Dec => "dec" case Sub => "sub" case And => "and" case Or => "or" case Add => "add"
    case Ics => "ics" case Icc => "icc" case Define => "define"
  }

  function RegisterText(r: Register): string {
    match r
    case L => "L" case H => "H" case M => "M" case I => "I" case X => "X" case Y => "Y"
  }

  /** The mnemonic a word spells, if any: the test `word in keywords`. */
  function KeywordNamed(w: string): (r: Option<Keyword>)
    ensures r.Some? ==> KeywordText(r.value) == w
    ensures r.None? ==> forall i :: 0 <= i < |Keywords| ==> KeywordText(Keywords[i]) != w
  {
    match w
    case "lda" => Some(Lda)
    case "ldb" => Some(Ldb)
    case "ldu" => Some(Ldu)
    case "mov" => Some(Mov)
    case "jmp" => Some(Jmp)
    case "jlt" => Some(Jlt)
    case "jeq" => Some(Jeq)
    case "jgt" => Some(Jgt)
    case "jle" => Some(Jle)
    case "jge" => Some(Jge)
    case "jne" => Some(Jne)
    case "nop" => Some(Nop)
    case "jis" => Some(Jis)
    case "jcs" => Some(Jcs)
    case "opd" => Some(Opd)
    case "opi" => Some(Opi)
    case "hlt" => Some(Hlt)
    case "not" => Some(Not)
    case "neg" => Some(Neg)
    case "inc" => Some(Inc)
    case "dec" => Some(Dec)
    case "sub" => Some(Sub)
    case "and" => Some(And)
    case "or" => Some(Or)
    case "add" => Some(Add)
    case "ics" => Some(Ics)
    case "icc" => Some(Icc)
    case "define" => Some(Define)
    case _ => None
  }

  /** The register a word spells, if any: the test `word in registers`. */
  function RegisterNamed(w: string): (r: Option<Register>)
    ensures r.Some? ==> RegisterText(r.value) == w
    ensures r.None? ==> forall i :: 0 <= i < |Registers| ==> RegisterText(Registers[i]) != w
  {
    match w
    case "L" => Some(L)
    case "H" => Some(H)
    case "M" => Some(M)
    case "I" => Some(I)
    case "X" => Some(X)
    case "Y" => Some(Y)
    case _ => None
  }

  /** Each spelling names its own mnemonic, and no mnemonic is spelled
      like a register. */
  lemma KeywordSpellingReadsBack(k: Keyword)
    ensures KeywordNamed(KeywordText(k)) == Some(k)
    ensures RegisterNamed(KeywordText(k)).None?
  {
  }

  /** Each spelling names its own register, and no register is spelled like
      a mnemonic. */
  lemma RegisterSpellingReadsBack(r: Register)
    ensures RegisterNamed(RegisterText(r)) == Some(r)
    ensures KeywordNamed(RegisterText(r)).None?
  {
  }

  datatype Operand = Reg(register: Register) | Label(name: string) | Number(value: int)

  /** An instruction list `[mnemonic, operand, ...]` of the parser. */
  datatype Instruction = Instruction(command: Keyword, args: seq<Operand>)
}
