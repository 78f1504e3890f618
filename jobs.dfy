/** One job posting: a row of the CSV table, every column of which may hold NaN. */
module Jobs {
  import opened Options

  datatype Row = Row(
    title: Option<string>,          // "Job Title"
    company: Option<string>,        // "Company"
    location: Option<string>,       // "Location"
    salary: Option<string>,         // "Salary", free text such as "15-25 millions"
    skills: Option<string>,         // "Skills", comma-separated
    experience: Option<string>,     // "Experience", a label such as "Senior"
    postedDate: Option<string>,     // "Posted Date"
    avgSalary: Option<real>,        // "Avg_Salary_Million", derived by the cleaner
    expLevel: Option<int>           // "Exp_Level", derived by the cleaner
  )
}
