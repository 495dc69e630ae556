/** The messages of the `SensorService.SendReading` remote call, shared by both sides. */
module Wire {
  import opened GoInts

  /** `pb.SensorReading`: the value narrowed to 32 bits, the timestamp in Unix seconds. */
  datatype WireReading = WireReading(sensorName: string, value: Int32, timestamp: Int64)

  /** `pb.SendReadingResponse`: the collector's envelope. */
  datatype Response = Response(success: bool, message: string)
}
