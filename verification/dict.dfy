/** One key of a Python dictionary record such as a user's filter settings:
    either absent, or present with the value stored under it. */
module Dict {

  datatype Entry<T> = Absent | Present(value: T)
}
