/** Record shapes declared in type-only files of the code base.  Timestamps
    (`time.Time`) are whole seconds since the Unix epoch; the zero
    `time.Time` is 0. */
module Records {

  type Time = int

  /** book.Book (app/book/book.go); the float64 Rating field is left out. */
  datatype Book = Book(
    id: int, title: string, year: int, author: string, publisher: string,
    publishedYear: int, isbn: string, genre: string, description: string,
    coverImage: string)

  /** notification.Notification (notification/notification.go): it carries
      both a `Read` and an `IsRead` flag. */
  datatype Notification = Notification(
    id: int, userId: int, name: string, message: string, timestamp: Time,
    isRead: bool, read: bool, category: string, receiver: string, sender: string)

  /** review.Review (review/review.go). */
  datatype Review = Review(
    id: int, userId: int, bookId: int, rating: int, comment: string, timestamp: Time)

  /** user.User (app/user/user.go). */
  datatype User = User(id: int, username: string, email: string, password: string, name: string)
}
