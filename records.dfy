/** The records the recommendation engine reads and returns: one row of the
    trains table, one row of the platform table, and a suggested pairing. */
module Records {

  /** A train waiting for clearance. `priority` is lower-is-more-urgent,
      `delay` is in seconds, and `clearanceTime` stands for the
      clearance_time column (only its ordering matters to the engine). */
  datatype Train = Train(tripId: string, priority: int, delay: int, clearanceTime: int)

  /** A platform line and its availability flag (the Is_Available column). */
  datatype Platform = Platform(platformId: string, lineId: string, isAvailable: bool)

  /** One entry of the engine's result: a train and the line suggested for it. */
  datatype Recommendation = Recommendation(train: Train, platform: Platform)
}
