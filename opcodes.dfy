/** The instruction set.  The repository's numeric table (include/opcodes.h) does not
    match the opcodes vm.c dispatches on: it lacks most of them and gives DBG and PCH
    the same code.  The model therefore uses an abstract enumeration with one fixed,
    injective byte encoding.  It keeps the values opcodes.h does give (NOP 0x00,
    LDR 0x02, ADD 0x03, SUB 0x04, EQU 0x06, LT 0x09, JMP 0x0A, JPT 0x0B, STR 0x0E,
    PNT 0x0F, DBG 0x10, INC 0x11, DEC 0x12, PSH 0x13, LBL 0xFE, EXT 0xFF) and numbers
    the remaining opcodes from 0x14 on.  Only LBL = 0xFE is load-bearing: the
    relocation pass compares raw bytes against it. */
module Opcodes {
  import opened Words
  import opened Results

  datatype Opcode =
    | NOP | LDR | ADD | SUB | EQU | LT | JMP | JPT | STR | PNT | DBG | INC | DEC | PSH
    | PTS | PTC | MOD | MUL | DIV | CLL | RET | TKS | JPF | GT | NOT | OR | REF | RF8
    | PS8 | DUP | SWP | DRP | ROT | OVR | DRPZ | DUPZ | BKP | SWPZ
    | LBL | EXT

  const LBL_BYTE: Byte := 0xFE

  /** The byte an opcode is stored as; every opcode decodes back from it. */
  function Encode(op: Opcode): (b: Byte)
    ensures Decode(b) == Some(op)
    ensures b == LBL_BYTE <==> op == LBL
  {
    match op
    case NOP => 0x00  case LDR => 0x02  case ADD => 0x03  case SUB => 0x04
    case EQU => 0x06  case LT => 0x09   case JMP => 0x0A  case JPT => 0x0B
    case STR => 0x0E  case PNT => 0x0F  case DBG => 0x10  case INC => 0x11
    case DEC => 0x12  case PSH => 0x13  case PTS => 0x14  case PTC => 0x15
    case MOD => 0x16  case MUL => 0x17  case DIV => 0x18  case CLL => 0x19
    case RET => 0x1A  case TKS => 0x1B  case JPF => 0x1C  case GT => 0x1D
    case NOT => 0x1E  case OR => 0x1F   case REF => 0x20  case RF8 => 0x21
    case PS8 => 0x22  case DUP => 0x23  case SWP => 0x24  case DRP => 0x25
    case ROT => 0x26  case OVR => 0x27  case DRPZ => 0x28 case DUPZ => 0x29
    case BKP => 0x2A  case SWPZ => 0x2B case LBL => 0xFE  case EXT => 0xFF
  }

  /** The opcode a byte stands for, if any (`opcode_to_str` returns NULL otherwise). */
  function Decode(b: Byte): (r: Option<Opcode>) {
    match b
    case 0x00 => Some(NOP)  case 0x02 => Some(LDR)  case 0x03 => Some(ADD)
    case 0x04 => Some(SUB)  case 0x06 => Some(EQU)  case 0x09 => Some(LT)
    case 0x0A => Some(JMP)  case 0x0B => Some(JPT)  case 0x0E => Some(STR)
    case 0x0F => Some(PNT)  case 0x10 => Some(DBG)  case 0x11 => Some(INC)
    case 0x12 => Some(DEC)  case 0x13 => Some(PSH)  case 0x14 => Some(PTS)
    case 0x15 => Some(PTC)  case 0x16 => Some(MOD)  case 0x17 => Some(MUL)
    case 0x18 => Some(DIV)  case 0x19 => Some(CLL)  case 0x1A => Some(RET)
    case 0x1B => Some(TKS)  case 0x1C => Some(JPF)  case 0x1D => Some(GT)
    case 0x1E => Some(NOT)  case 0x1F => Some(OR)   case 0x20 => Some(REF)
    case 0x21 => Some(RF8)  case 0x22 => Some(PS8)  case 0x23 => Some(DUP)
    case 0x24 => Some(SWP)  case 0x25 => Some(DRP)  case 0x26 => Some(ROT)
    case 0x27 => Some(OVR)  case 0x28 => Some(DRPZ) case 0x29 => Some(DUPZ)
    case 0x2A => Some(BKP)  case 0x2B => Some(SWPZ) case 0xFE => Some(LBL)
    case 0xFF => Some(EXT)
    case _ => None
  }

  /** Decoding is the inverse of encoding: a byte that decodes is the encoding of
      what it decodes to, so the encoding is injective. */
  lemma DecodeEncode(b: Byte, op: Opcode)
    requires Decode(b) == Some(op)
    ensures Encode(op) == b
  {
    match op
    case NOP => case LDR => case ADD => case SUB => case EQU => case LT =>
    case JMP => case JPT => case STR => case PNT => case DBG => case INC =>
    case DEC => case PSH => case PTS => case PTC => case MOD => case MUL =>
    case DIV => case CLL => case RET => case TKS => case JPF => case GT =>
    case NOT => case OR => case REF => case RF8 => case PS8 => case DUP =>
    case SWP => case DRP => case ROT => case OVR => case DRPZ => case DUPZ =>
    case BKP => case SWPZ => case LBL => case EXT =>
  }
}
