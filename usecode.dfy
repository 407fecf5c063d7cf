/**
 * The records of usecode_parser.py: a data segment of a function's data
 * section, one decoded instruction, and a whole usecode function.
 */
module Usecode {
  import opened Text

  /**
   * The `data` field of a segment: the text of a quoted string (or a raw
   * token that is not a hexadecimal number), or the value of a byte token.
   */
  datatype SegmentData = Chars(text: string) | Number(value: nat)

  datatype DataSegment = DataSegment(labelName: string, address: nat, data: SegmentData, isString: bool)

  datatype Instruction = Instruction(
    address: nat,
    opcode: nat,
    bytes: seq<nat>,
    mnemonic: string,
    operands: seq<string>,
    comment: Option<string>)

  datatype UsecodeFunction = UsecodeFunction(
    funcNumber: nat,
    argc: nat,
    localc: nat,
    dataSegments: seq<DataSegment>,
    dataLabels: map<string, DataSegment>,
    instructions: seq<Instruction>,
    externalFuncs: seq<nat>,
    externsize: nat)

  /** `UsecodeFunction(func_number=n)`: every other field at its default. */
  function NewFunction(n: nat): (f: UsecodeFunction)
    ensures f.funcNumber == n && f.argc == 0 && f.localc == 0 && f.externsize == 0
    ensures f.dataSegments == [] && f.dataLabels == map[] && f.instructions == [] && f.externalFuncs == []
  {
    UsecodeFunction(n, 0, 0, [], map[], [], [], 0)
  }

  /**
   * `data_labels` indexes the segments: a label is a key exactly when some
   * segment carries it, and its value is the LAST segment with that label
   * (a later segment replaces an earlier entry with the same label).
   */
  ghost predicate LabelsIndexLast(f: UsecodeFunction)
  {
    forall l :: LastWithLabel(f.dataSegments, l) == if l in f.dataLabels then Some(f.dataLabels[l]) else None
  }

  /** The last segment of segs whose label is l. */
  function LastWithLabel(segs: seq<DataSegment>, l: string): (r: Option<DataSegment>)
    ensures r.None? <==> forall i :: 0 <= i < |segs| ==> segs[i].labelName != l
    ensures r.Some? ==> r.value.labelName == l && r.value in segs
  {
    if segs == [] then None
    else if segs[|segs| - 1].labelName == l then Some(segs[|segs| - 1])
    else LastWithLabel(segs[..|segs| - 1], l)
  }
}
