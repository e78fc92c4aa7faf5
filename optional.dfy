/** The `None`/value-or-absent wrapper used for the tracker's nullable fields
    (`current_activity_start_time`, `last_reset_time`, mouse positions, ...). */
module Optional {

  datatype Option<+T> = None | Some(value: T)
}
