/**
 The record exchanged between the two tasks and the observable log events
 each task emits. Console formatting is not modelled: every `printf` of the
 two tasks becomes one abstract event tag carrying the values it prints.
 */
module Types {

  /** `uint8_t`: the range of the record's identifier and of the input `G_DataID`. */
  type UInt8 = x: int | 0 <= x < 0x100

  /** `int32_t`: the range of the record's value and of the input `G_DataValue`. */
  type Int32 = x: int | -0x8000_0000 <= x < 0x8000_0000

  /** `Data_t`: a plain value, copied into and out of the channel. */
  datatype Data = Data(dataID: UInt8, dataValue: Int32)

  /** One tag per console line the two tasks print. */
  datatype Event =
    | Sent(sent: Data)                 // producer: successful enqueue
    | Received(received: Data)         // consumer: every record taken from the channel
    | DeletingOnId                     // consumer: identifier 0, task deletes itself
    | PriorityIncreased(raisedTo: nat) // consumer: boost to the initial priority + 2
    | PriorityDecreased(loweredTo: nat) // consumer: restore to the initial priority
    | DeletingOnValue                  // consumer: identifier 1 with value 2, task deletes itself

  datatype Option<T> = None | Some(value: T)
}
